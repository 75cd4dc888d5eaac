# WebGL-Spectrogram: wire protocol, texture chunking and viewer state in Dafny

WebGL-Spectrogram is a browser spectrogram viewer. A Python server computes
a spectrogram and sends it over a WebSocket. A JavaScript client cuts it into
GPU textures and draws them, with mouse-wheel zoom and pan. This project
models the sequential logic of both sides and proves properties of it:

- **The binary frame format** (`results.dfy`, `bytes.dfy`, `alignment.dfy`,
  `communication.dfy`, `server.dfy`).
  - A frame is a 32-bit header length, then the JSON header padded with
    spaces so that the payload starts on an 8-byte boundary, then the payload.
  - Both ends build such frames: the client's `sendMessage` and the server's
    `send_binary_message`.
  - The client's `ws.onmessage` splits a frame, parses the header, and acts
    on the header's `type`.
  - `updateProgressBar` decides when the progress bar is shown.
  - Frames are byte sequences. JavaScript strings are sequences of UTF-16
    code units.
  - The typed-array conversions are written out: ToInt32 wrap-around,
    two's-complement reads, ToUint8 truncation of character codes, and
    `String.fromCharCode`.
- **The texture chunking of `loadSpectrogram`** (`chunking.dfy`).
  - It covers the number of textures, each texture's block count, its data
    offset and uploaded texels, its normalised x-range, and its quad.
- **The viewer state** (`viewer.dfy`).
  - This is zoom, pan, the loaded textures, and the `dirty` flag that gates
    the periodic `drawScene`.
  - The canvas is modelled by the scene it last showed. This makes it
    possible to state the purpose of the flag: a clear flag means the canvas
    is up to date.
- **The `SpecSize` extent type** (`specsize.js` → `specsize.dfy`): width,
  center and scale on the time, frequency and amplitude axes.

Three facts about `loadSpectrogram` (spectrogram.js:134-185) shape the
chunking model:

- It uploads each texture's slice of the block-major sample buffer as it is.
  The texture is `nfreqs` texels wide and `blocks` texels high, and nothing
  is transposed. The quad's texture coordinates map the texture's `t` axis
  to screen x and its `s` axis to screen y (`Quad`). `TexelIsSample` proves
  that texel (b, f) of texture i is bin f of block `i * max_width + b`.
- Texture i spans x from `i / max_x_coord` to `(i + 1) / max_x_coord`, and
  the last texture ends at 1. Here `max_x_coord = max(1, nblocks / max_width)`.
  `ChunkXRange` proves that this range is the texture's block range divided
  by `nblocks`. So every texture's width on screen is proportional to its
  block count, including a short last texture.
- The number of textures is not compared with the number of texture units
  or with any other limit. Only `texImage2D` itself can refuse a texture,
  and `TextureData` models when it does.

## Model

| member | source | states |
|---|---|---|
| `Bytes.Int32Bytes` | communication.js:34-35 | the four bytes stored by an `Int32Array` element denote the stored number modulo 2^32 (ToInt32 wrap-around) |
| `Bytes.ReadInt32` | communication.js:94 | the value read from an `Int32Array` element is the signed 32-bit number whose residue modulo 2^32 is the little-endian value of the four bytes |
| `Bytes.Int32RoundTrip` | communication.js:94 | any signed 32-bit header length that is written comes back unchanged when read |
| `Bytes.Int32BytesOfRead` | communication.js:94 | reading four prefix bytes and writing the value back gives the same four bytes, so the prefix read loses nothing |
| `Bytes.StoreAsBytes` | communication.js:38-41 | the header written into a `Uint8Array` has one byte per code unit; `Latin1RoundTrip` proves that reading it back loses nothing exactly for Latin-1 headers |
| `Bytes.BytesAsString` | communication.js:95 | `fromCharCode` gives one code unit per header byte; `BytesRoundTrip` proves that the code units are Latin-1 and store back to the same bytes |
| `Bytes.LittleEndianRoundTrip` | server.py:66 | `to_bytes(4, "little")` of a length below 2^32 decodes back to that length |
| `Bytes.Latin1RoundTrip` | communication.js:38-41 | storing a header one byte per character and reading it back with `fromCharCode` gives back the header if and only if all of its characters are below 256 |
| `Bytes.BytesRoundTrip` | communication.js:95 | header bytes read as characters and stored again are the same bytes, and the characters read are Latin-1 |
| `Alignment.PadCount` | communication.js:26 | the number of padding spaces is between 1 and 8, and after that many spaces the payload offset is a multiple of 8 |
| `Alignment.PadCountIsLeast` | communication.js:26 | the padding count is the least positive count that aligns the payload, and it is 8 exactly when the header is already aligned |
| `Alignment.Pad` | communication.js:27-29 | the padded header is the original header, unchanged, followed only by spaces, and its length makes the payload aligned |
| `Alignment.AlignedForFloats` | communication.js:111 | an 8-byte aligned payload offset is also a multiple of 4, which the `Float32Array` view at `headerLen + 4` needs |
| `Communication.PaddedHeader` | communication.js:26-29 | the client's padded header is its header plus `8 - ((len + 4) % 8)` spaces, and the payload after it is 8-byte aligned |
| `Communication.Layout` | communication.js:31 | a frame is 4 prefix bytes, one byte per header character, then the payload, so its length is `4 + header + payload` |
| `Communication.EncodeBinary` | communication.js:19-45 | the frame has length `4 + padded + payload`; bytes 0-3 hold the padded length as an Int32, the next bytes hold the header characters, and the rest is the payload verbatim |
| `Communication.EncodeBinaryAsWritten` | communication.js:34 | the prefix view created with four elements makes the encoder throw exactly when the frame is shorter than 16 bytes, and otherwise the encoder gives the corrected frame |
| `Communication.ShortFrameIsRefused` | communication.js:34 | the header `{}` with an empty payload gives an 8-byte frame that the as-written encoder refuses |
| `Communication.AsWrittenAgreesOnRealHeaders` | communication.js:34 | for every header of at least 4 characters, the as-written encoder produces the corrected frame |
| `Communication.SendMessage` | communication.js:13-47 | with no payload the frame is text holding exactly the JSON, with no prefix or padding. With a payload it is the binary frame: the padded header length as an Int32, then one byte per padded-header character, then the payload |
| `Communication.SendMessageAsWritten` | communication.js:13-47 | the call as written throws exactly when it builds a binary frame shorter than 16 bytes, and every call that does not throw sends the frame `SendMessage` gives |
| `Communication.ShortMessageIsRefused` | communication.js:34 | `{}` with a 4-byte payload gives a 12-byte frame, so the call as written throws |
| `Communication.SplitFrame` | communication.js:93-95 | a split fails exactly when the prefix is missing, negative, or longer than the buffer. A successful split reproduces the frame from its parts; the header is Latin-1, its length is the prefix value, and the payload is every byte after offset `4 + headerLen` |
| `Communication.SplitEncodedFrame` | communication.js:94-95 | splitting a client frame gives back the exact payload, and gives back the padded header itself if and only if the header is Latin-1 |
| `Communication.Dispatch` | communication.js:107-119 | `"spectrogram"` loads the payload, `"loading_progress"` updates the progress bar, and every other type is only logged; the content is passed on unchanged |
| `Communication.HeaderText` | communication.js:93-98 | a text message is its own header. A binary message has a header exactly when its frame splits: the header is then the split's header, and otherwise the split's error |
| `Communication.OnMessage` | communication.js:93-119 | an unreadable frame or a header that does not parse leads to no action. A parsed text header is dispatched with no samples. A parsed binary `"spectrogram"` header is dropped exactly when the float view at offset `4 + headerLen` is misaligned, and every other parsed binary header is dispatched with the bytes after that offset |
| `Communication.Latin1FrameSplits` | communication.js:94-95 | a client frame with a Latin-1 header splits into exactly its padded header and its payload |
| `Communication.AlignedSplitDispatches` | communication.js:93-114 | a frame that splits into a header that parses and a payload, with the float view at offset `4 + headerLen` aligned, is dispatched with exactly that payload |
| `Communication.ClientFrameDispatches` | communication.js:100-114 | a client frame with a Latin-1 header that parses and a payload of whole floats is dispatched with exactly that payload |
| `Communication.UpdateProgressBar` | communication.js:129-135 | the bar is hidden if and only if the progress is 0 or 1; a visible bar shows the progress, and a hidden bar keeps its old value |
| `Communication.UpdateProgressBarIdempotent` | communication.js:129-135 | applying the same progress twice has the same effect as applying it once |
| `Server.EncodeAscii` | server.py:44-45 | `str.encode()` of an ASCII JSON text gives one byte per character, and reading those bytes as a string gives back the text |
| `Server.SendMessage` | server.py:35-45 | the text frame's bytes decode to exactly the serialised JSON |
| `Server.SendBinaryMessage` | server.py:60-68 | the prefix overflows exactly when the padded header reaches 2^32 bytes. Otherwise the frame is a 4-byte little-endian padded length, then the padded header, then the payload, with an aligned payload offset |
| `Server.PaddedHeadersMatch` | server.py:64 | the server's padded header bytes are the bytes the client stores for the same padded header |
| `Server.ServerFrameMatchesClient` | server.py:60-68 | for an ASCII header, the server frame is byte for byte the frame the client builds from the same text and payload |
| `Server.ServerFrameDispatches` | server.py:66-68 | a server frame with a whole-float payload reaches the client's dispatch with the parsed header and the exact payload |
| `Server.ServerTextDispatches` | server.py:44-45 | a server text message is parsed and dispatched by the client as its JSON says |
| `SpecSize.SpecSize.Width` | specsize.js:12-24 | the lower bound plus the width is the upper bound; the width is non-negative exactly on an ordered axis |
| `SpecSize.SpecSize.Center` | specsize.js:27-39 | the center is equidistant from both bounds, and lies between them on an ordered axis |
| `SpecSize.SpecSize.Scale` | specsize.js:42-54 | relative position 0 maps to the lower bound, 1 to the upper bound, and one half to the center |
| `SpecSize.ScaleIsLerp` | specsize.js:42-54 | the scale is linear interpolation between the axis bounds |
| `SpecSize.ScaleAffine` | specsize.js:42-54 | the difference of two scaled positions is the difference of the positions times the width |
| `SpecSize.ScaleMonotone` | specsize.js:42-54 | on an ordered axis the scale never decreases |
| `SpecSize.ScaleWithinBounds` | specsize.js:42-54 | on an ordered axis, positions in [0, 1] scale to values between the bounds |
| `SpecSize.AxesIndependent` | specsize.js:12-54 | an axis's width, center and scale depend only on that axis's two bounds |
| `Chunking.NumTextures` | spectrogram.js:142 | `Math.ceil(nblocks / max_width)`; `NumTexturesIsCeiling` proves it is the fewest textures of `max_width` blocks that hold every block |
| `Chunking.NumTexturesIsCeiling` | spectrogram.js:142 | the texture count is the ceiling of `nblocks / max_width`: the fewest textures that hold all blocks, and zero exactly when there are no blocks |
| `Chunking.MaxXCoord` | spectrogram.js:143-144 | `max_x_coord` is never below 1; `MaxXCoordIsClampedRatio` proves it is 1 exactly when the blocks fit one texture, and `nblocks / max_width` otherwise |
| `Chunking.MaxXCoordIsClampedRatio` | spectrogram.js:143-144 | `max_x_coord` is at least 1, is 1 exactly when the blocks fit one texture, and is otherwise `nblocks / max_width` |
| `Chunking.SingleTexture` | spectrogram.js:142 | a spectrogram of at most `max_width` blocks gets at most one texture |
| `Chunking.BlocksAt` | spectrogram.js:174 | the block count of texture i; `BlocksAtBounds` proves it is `max_width` for all textures but the last, and that the last takes the remaining blocks |
| `Chunking.XAt` | spectrogram.js:161 | `k / max_x_coord`; `XAtIsBlockFraction` proves it is `k * max_width / nblocks` when the blocks need more than one texture |
| `Chunking.ChunkAt` | spectrogram.js:161-175 | the chunk the loop body sets up for texture i; `ChunkXRange` and `ChunkRegion` state its x-range and its data region |
| `Chunking.Plan` | spectrogram.js:160-183 | the loop builds one chunk per texture |
| `Chunking.BlocksAtBounds` | spectrogram.js:174 | every texture holds between 1 and `max_width` blocks, all but the last hold exactly `max_width`, and the last ends at block `nblocks` |
| `Chunking.PrefixBlocks` | spectrogram.js:174 | the textures before texture k hold `k * max_width` blocks between them |
| `Chunking.ChunkIsPartOfPartition` | spectrogram.js:174-175 | texture i's data offset is the sample count of all earlier textures, and its region ends inside the `nblocks * nfreqs` buffer |
| `Chunking.PlanPartitionsBlocks` | spectrogram.js:160-175 | the block counts are full textures then a non-empty remainder, they sum to `nblocks`, and every region lies in the buffer right after the previous ones |
| `Chunking.XAtIsBlockFraction` | spectrogram.js:161 | with more blocks than one texture holds, `k / max_x_coord` is `k * max_width / nblocks` |
| `Chunking.StartIsFraction` | spectrogram.js:161 | texture i starts at its first block's fraction of the time axis |
| `Chunking.EndIsFraction` | spectrogram.js:162 | a texture other than the last ends at the fraction of its first block plus `max_width` blocks |
| `Chunking.LastEndsAtOne` | spectrogram.js:162 | pinning the last texture's end to 1 places that end at the last block |
| `Chunking.ChunkXRange` | spectrogram.js:161-162 | a texture's x-range is exactly its block range divided by `nblocks` |
| `Chunking.PlanXRangesTile` | spectrogram.js:161-162 | the x-ranges start at 0, each ends where the next begins, the last ends at 1, and each satisfies `0 <= min_x < max_x <= 1` |
| `Chunking.Subarray` | spectrogram.js:175 | `subarray(begin)` holds the samples from `begin` on, element by element, and is empty when `begin` is past the end |
| `Chunking.TextureData` | spectrogram.js:175-178 | an upload fails exactly when a dimension exceeds the maximum texture size or the subarray is too short; otherwise texel k is sample `offset + k` |
| `Chunking.Textures` | spectrogram.js:176-178 | one texture per chunk, a refused upload leaving it empty; `TextureIsRegion` and `PlanCoversSamples` state what a full buffer uploads |
| `Chunking.ChunkRegion` | spectrogram.js:175 | texture i's data starts at `i * max_width * nfreqs`; a texture other than the last ends where the next starts, and the last ends at the end of the buffer |
| `Chunking.PlanUploadsSucceed` | spectrogram.js:175-178 | for a full buffer whose frequency count fits a texture row, every upload succeeds and uploads exactly that texture's region |
| `Chunking.ChunksAdjacent` | spectrogram.js:175 | consecutive textures' regions meet, with no gap and no overlap |
| `Chunking.TextureIsRegion` | spectrogram.js:175-178 | each uploaded texture is its own region of the buffer |
| `Chunking.PlanHoldsRegions` | spectrogram.js:160-178 | for a full buffer whose frequency count fits a texture row, there is one texture per chunk, and every texture holds exactly its chunk's region of the buffer |
| `Chunking.TextureBetweenBounds` | spectrogram.js:175-178 | texture i is the buffer between region boundaries i and i + 1 |
| `Chunking.PlanCoversSamples` | spectrogram.js:160-183 | joined in plan order, the uploaded textures are exactly the sample buffer, so every sample is in exactly one texture |
| `Chunking.TexelIsSample` | spectrogram.js:175-178 | texel (b, f) of texture i is bin f of block `i * max_width + b`, so no transposition is needed |
| `Chunking.Quad` | spectrogram.js:152-171 | each quad corner's x is `2 * x - 1` of the point its `t` texture coordinate selects in the chunk's range, and its `s` coordinate follows screen y |
| `Chunking.PlanQuadsTileClipSpace` | spectrogram.js:166-171 | the quads lie in clip space [-1, 1], each fits edge to edge with the next, and together they span from -1 to 1 |
| `Viewer.Initial` | spectrogram.js:17-20 | the globals before `start`: zoom 1, no pan, a clear flag, no textures and a blank canvas; `Start` is what makes the viewer consistent |
| `Viewer.SceneOf` | spectrogram.js:197-212 | what `drawScene` hands the renderer: the zoom matrix, one quad per chunk, and the textures; `DrawShowsCurrentScene` states when the canvas shows it |
| `Viewer.ZoomMatrix` | spectrogram.js:197-201 | the uploaded zoom matrix has nine entries |
| `Viewer.RestMatrixIsIdentity` | spectrogram.js:197-201 | with no zoom and no pan the zoom matrix is the identity |
| `Viewer.ZoomMatrixInjective` | spectrogram.js:197-201 | two views upload the same matrix if and only if they have the same zoom and pan |
| `Viewer.Resize` | spectrogram.js:36-41 | a resize clears the canvas and sets the flag, and changes nothing else |
| `Viewer.Load` | spectrogram.js:134-185 | a load replaces the plan and textures, and sets the flag. For a full buffer whose frequency count fits a texture row, texture i holds exactly chunk i's region of the samples, and the textures join to exactly the samples |
| `Viewer.Wheel` | spectrogram.js:219-229 | a shift+wheel sets the zoom to the larger of 1 and the scaled zoom, and changes nothing else. A plain wheel adds `0.001 * delta` to each pan and changes nothing else. Both set the flag |
| `Viewer.Draw` | spectrogram.js:187-215 | a hidden or clean viewer is left unchanged; otherwise the current scene is painted and the flag is cleared; nothing else changes |
| `Viewer.Step` | spectrogram.js:36-229 | one resize, load, wheel event or draw tick keeps the viewer invariant and the texture size |
| `Viewer.Run` | spectrogram.js:25-33 | the handlers run one at a time in arrival order; `RunPreservesConsistent` and `PanAccumulates` state what any run keeps |
| `Viewer.Start` | spectrogram.js:22-34 | start leaves the viewer consistent and dirty, unzoomed and unpanned, with one texture of 256 zero samples when `max_width >= 16` |
| `Viewer.StepPreservesConsistent` | spectrogram.js:17-229 | every event keeps the zoom at least 1 and keeps "flag clear ⇒ canvas shows the current scene" |
| `Viewer.RunPreservesConsistent` | spectrogram.js:17-229 | the invariant holds after any sequence of events |
| `Viewer.DrawShowsCurrentScene` | spectrogram.js:188-214 | on a consistent viewer, a visible draw leaves the canvas showing the current scene whether or not it repaints |
| `Viewer.DrawIdempotent` | spectrogram.js:188-214 | a second draw with no event in between changes nothing |
| `Viewer.StartedViewerShowsCurrentScene` | spectrogram.js:22-33 | after start and any events, the next visible draw shows the scene of the current state |
| `Viewer.PanAccumulates` | spectrogram.js:225-226 | after any events, the pan has moved by 0.001 times the summed deltas of the unshifted wheel events, and no other event moves it |
| `Viewer.ZoomNeedsShift` | spectrogram.js:220-223 | events without a shifted wheel event never change the zoom |

## Left out

- WebGL calls are not modelled: context setup, shader compilation, buffer and texture creation, draw calls and texture-unit binding. The model keeps only what they are given: the quads, the texels and the matrix.
- The meaning of the zoom matrix inside the vertex shader is not modelled. The shader is not part of this model.
- JSON serialisation and parsing are left out. The header is an opaque string, and parsing is a parameter that may fail.
- The header contents are opaque. This includes the client reading `content.extent` where the server writes `extent` at the top level of the header.
- Decoding payload bytes as IEEE floats is left out. Samples are `real` in the viewer, and the zoom factor `Math.pow(0.99, deltaY)` is an arbitrary real parameter.
- Platform byte order is not modelled. Both the `Int32Array` prefix and `sys.byteorder` are fixed to little-endian.
- The WebSocket transport, `ws.onopen`, the request functions and the DOM are left out. Only the progress bar's visibility and value are kept.
- The server's `spectrogram()` is left out because it is FFT and file I/O. So are `on_message`, `open` and the tornado application, which are network glue.
- main.py is not part of this model.
- `setInterval` scheduling and `document.hidden` are left out. A draw tick is an event, and hidden is its parameter.
- `String.fromCharCode.apply` argument-count limits and `ArrayBuffer` size limits are not modelled.
- All JavaScript number arithmetic is modelled as exact arithmetic on `real`. This covers the x-ranges `i / max_x_coord` (spectrogram.js:161-162), the vertex coordinates stored into a `Float32Array` (spectrogram.js:164-172), the pan sums (spectrogram.js:225-226), and the `SpecSize` width, center and scale (specsize.js:12-54). IEEE double rounding and the float32 conversion are not modelled. So `ChunkXRange`, `PlanXRangesTile`, `PlanQuadsTileClipSpace`, `PanAccumulates` and the `SpecSize` lemmas hold for the exact values, which the program's doubles only approximate. For example, `Scale(1)` may differ from the upper bound by a rounding error.
- Communication.SendMessage: builds on the corrected encoder, so it always yields a frame. The `RangeError` that the code as written throws for a binary frame shorter than 16 bytes is modelled by `Communication.SendMessageAsWritten`, which sends the same frame on every call that does not throw.
- Server.SendBinaryMessage: takes the already serialised header bytes. That they are ASCII, which follows from `json.dumps` escaping non-ASCII characters, is a precondition of the lemmas that compare with the client.
- Viewer.ZoomMatrix: its contract states only the matrix size. Its content is stated by `RestMatrixIsIdentity` and `ZoomMatrixInjective`, because the shader that interprets it is not modelled.

## Findings

| source | as written | input that shows it | evidently intended | confidence | as-written member | corrected member |
|---|---|---|---|---|---|---|
| communication.js:34 | `new Int32Array(message, 0, 4)` creates a view of four 32-bit elements, which needs 16 bytes of buffer, so any frame shorter than 16 bytes throws a `RangeError` before anything is sent | header `{}` (2 characters, padded to 4) with an empty payload: an 8-byte frame | a one-element view for the 4-byte prefix, so that every frame is sent | not executed; a real header carries a `type` key and is at least 11 characters long, so real callers never reach it | `Communication.EncodeBinaryAsWritten` | `Communication.EncodeBinary` |
