/**
  The server side of the wire protocol (server.py): `send_message` for text
  frames and `send_binary_message` for header-plus-payload frames, and how
  the client decodes what they send.

  `json.dumps` escapes every character beyond ASCII by default, so the
  serialised header is ASCII text and its UTF-8 encoding is one byte per
  character; the serialiser itself is outside this module.
 */
module Server {
  import opened Results
  import opened Bytes
  import Alignment
  import Communication

  /** `int.to_bytes` raises when the length does not fit in 4 unsigned bytes. */
  datatype SendError = OverflowError

  /** `str.encode()` of an ASCII text: the code of every character as a byte. */
  function EncodeAscii(json: string): (b: seq<Byte>)
    requires IsAscii(json)
    ensures |b| == |json|
    ensures IsAsciiBytes(b)
    ensures BytesAsString(b) == AsciiToJs(json)
  {
    seq(|json|, i requires 0 <= i < |json| => json[i] as int as Byte)
  }

  /** `send_message`: the UTF-8 bytes of the serialised `{type, content}`,
      sent as a text frame; the browser hands the client exactly that text. */
  function SendMessage(json: string): (b: seq<Byte>)
    requires IsAscii(json)
    ensures |b| == |json|
    ensures BytesAsString(b) == AsciiToJs(json)
  {
    EncodeAscii(json)
  }

  /** `send_binary_message`: the header bytes padded with spaces to align
      the payload, preceded by their length as 4 little-endian bytes and
      followed by the payload. */
  function SendBinaryMessage(header: seq<Byte>, payload: seq<Byte>): (r: Result<seq<Byte>, SendError>)
    ensures r.Err? <==> |Alignment.Pad(header, SpaceByte)| >= TwoTo32
    ensures r.Ok? ==>
      var padded := Alignment.Pad(header, SpaceByte);
      && |r.value| == Alignment.PrefixSize + |padded| + |payload|
      && Alignment.PayloadAligned(|padded|, 0)
      && FromLittleEndian(r.value[..4]) == |padded|
      && r.value[4..4 + |padded|] == padded
      && r.value[4 + |padded|..] == payload
  {
    var padded := Alignment.Pad(header, SpaceByte);
    if |padded| >= TwoTo32 then Err(OverflowError)
    else
      Pow256Of4();
      LittleEndianRoundTrip(|padded|, 4);
      var frame := LittleEndian(|padded|, 4) + padded + payload;
      assert frame[..4] == LittleEndian(|padded|, 4);
      assert frame[4..4 + |padded|] == padded;
      Ok(frame)
  }

  /** The server's padded header bytes are the bytes the client stores for
      its padded header: both append the same number of spaces. */
  lemma PaddedHeadersMatch(json: string)
    requires IsAscii(json)
    ensures Alignment.Pad(EncodeAscii(json), SpaceByte) == StoreAsBytes(Communication.PaddedHeader(AsciiToJs(json)))
  {
    var header := EncodeAscii(json);
    var js := AsciiToJs(json);
    var padded := Alignment.Pad(header, SpaceByte);
    var jsPadded := Communication.PaddedHeader(js);
    forall i | 0 <= i < |padded|
      ensures padded[i] == StoreAsBytes(jsPadded)[i]
    {
      if i < |header| {
        assert padded[i] == header[i];
        assert jsPadded[i] == js[i];
      } else {
        assert padded[i] == SpaceByte;
        assert jsPadded[i] == Space;
      }
    }
  }

  /** For an ASCII header the server's frame is byte for byte the frame the
      client's `sendMessage` builds from the same text and payload. */
  lemma ServerFrameMatchesClient(json: string, payload: seq<Byte>)
    requires IsAscii(json)
    requires |Communication.PaddedHeader(AsciiToJs(json))| < TwoTo31
    ensures SendBinaryMessage(EncodeAscii(json), payload)
         == Ok(Communication.EncodeBinary(AsciiToJs(json), payload))
  {
    var padded := Alignment.Pad(EncodeAscii(json), SpaceByte);
    var jsPadded := Communication.PaddedHeader(AsciiToJs(json));
    PaddedHeadersMatch(json);
    assert |padded| % TwoTo32 == |padded|;
    assert SendBinaryMessage(EncodeAscii(json), payload).value == LittleEndian(|padded|, 4) + padded + payload;
    assert Communication.EncodeBinary(AsciiToJs(json), payload)
        == Int32Bytes(|jsPadded|) + StoreAsBytes(jsPadded) + payload;
  }

  /** A spectrogram frame from the server reaches the client's dispatch with
      its parsed header and the exact payload, provided the payload is whole
      32-bit floats (as `ndarray.tostring` of a float32 array is). */
  lemma ServerFrameDispatches<C>(json: string, payload: seq<Byte>,
                                 parse: JsString -> Option<Communication.Header<C>>,
                                 h: Communication.Header<C>)
    requires IsAscii(json)
    requires |Communication.PaddedHeader(AsciiToJs(json))| < TwoTo31
    requires parse(Communication.PaddedHeader(AsciiToJs(json))) == Some(h)
    requires |payload| % 4 == 0
    ensures SendBinaryMessage(EncodeAscii(json), payload).Ok?
    ensures Communication.OnMessage(
              Communication.BinaryMessage(SendBinaryMessage(EncodeAscii(json), payload).value), parse)
         == Communication.Dispatch(h, payload)
  {
    ServerFrameMatchesClient(json, payload);
    Communication.ClientFrameDispatches(AsciiToJs(json), payload, parse, h);
  }

  /** A text message from the server is parsed and dispatched as its JSON says. */
  lemma ServerTextDispatches<C>(json: string,
                                parse: JsString -> Option<Communication.Header<C>>,
                                h: Communication.Header<C>)
    requires IsAscii(json)
    requires parse(AsciiToJs(json)) == Some(h)
    ensures Communication.OnMessage(Communication.TextMessage(BytesAsString(SendMessage(json))), parse)
         == Communication.Dispatch(h, [])
  {
  }
}
