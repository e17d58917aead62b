# node-ogg: Opus encoder transform and Ogg wrapper objects, in Dafny

This project models the two sequential parts of the node-ogg binding. The Ogg framing
engine is not one of them: page resynchronisation and packet/page multiplexing live in
libogg, which the binding only calls.

- **`OpusEncoderStream`** (`opus_encoder.dfy`) models the Opus-over-Ogg encoder transform
  of `lib/opus-encoder-stream.js`. The class `Encoder` has the source object's fields
  (`headerWritten`, `pos`, `granulepos`, `samplesWritten`, `lastPacket`). `output` is the
  sequence of records handed to `push`. The ghost field `frames` lists the encoded buffers
  received so far. `Valid()` ties the fields to two functions of `frames`:
  - `Emitted` is the output before the flush;
  - `Finished` is the output after it.

  Lemmas about these two functions state the properties of the stream:
  - the two Opus headers come first and only once;
  - packet numbers are consecutive;
  - granule positions advance by `frameSize * 48000 / rate`;
  - every data packet is held back by one step;
  - only the last packet is end-of-stream.

  Parsers for the identification and comment headers (sections 5.1 and 5.2 of RFC 7845)
  read the payloads back. The round-trip lemmas pin the headers down byte by byte.
- **`OggBinding`** (`ogg_binding.dfy`) models the N-API wrappers of `src/binding.cc`:
  - `OggPage` holds a header span and a body span; `toBuffer` copies one after the other.
  - `OggPacket` has validated setters. `packet` sets the payload and `bytes` together.
  - `SerialCounter` is the process-wide default serial counter. `OggStreamState.Create`
    draws the serial from it or from the argument.
  - `OggSyncPageoutWorker` and `StreamWorker` shape the callback arguments from libogg's
    return code.

  libogg is outside the model. Its return codes and the answers of its page queries are
  parameters, and so are the page spans it fills.
- **`Bytes`** (`bytes.dfy`) holds bytes, ASCII, little-endian 16/32-bit fields and the N-API
  Number-to-`int` conversion. **`Wrappers`** (`wrappers.dfy`) holds `Option`, `Result` and
  `Outcome`.

Three facts about the binding shape the model:
- The wrapper page carries only the header and body spans (src/binding.cc:59-107). Its
  serial, sequence number and end-of-stream flag are read through libogg queries.
- The binding keeps no busy status and queues no work per object. Each call builds one
  worker and hands it to N-API.
- The sync pageout callback reports only (status, serialno, packets)
  (src/binding.cc:367-372). The page it found is not handed back.

## Model

| member | source | states |
|---|---|---|
| `OpusEncoderStream.Configure` | lib/opus-encoder-stream.js:7-26 | The constructor accepts exactly the rates 8000, 12000, 16000, 24000 and 48000, and raises RangeError with the rejected rate otherwise. An absent or zero rate means 48000 and absent channels mean 1. An absent frame size means 40 ms of samples (rate/25). |
| `OpusEncoderStream.ConfigureDefaults` | lib/opus-encoder-stream.js:12-26 | With no arguments the encoder runs at 48 kHz, mono, with 1920-sample frames. |
| `OpusEncoderStream.DefaultFrameSize40ms` | lib/opus-encoder-stream.js:26 | At every valid rate the default frame size is whole at 48 kHz and advances the granule position by 1920. |
| `OpusEncoderStream.ExactFrameAlways` | lib/opus-encoder-stream.js:116 | For every rate and every integral frame size, frameSize·48000 is divisible by the rate, so the granule step is a whole number. |
| `OpusEncoderStream.Encoder.Create` | lib/opus-encoder-stream.js:9-32 | Construction fails exactly for an invalid rate. Otherwise it yields a fresh encoder with no header written, pos, granulepos and samplesWritten 0, nothing held back and nothing pushed. |
| `OpusEncoderStream.Encoder.constructor` | lib/opus-encoder-stream.js:25-31 | The initial state satisfies the encoder invariant, with nothing transformed and nothing pushed. |
| `OpusEncoderStream.Encoder.Push` | lib/opus-encoder-stream.js:72 | `push` appends one record to the output and changes nothing else. |
| `OpusEncoderStream.Encoder.WriteHeader` | lib/opus-encoder-stream.js:45-101 | It appends OpusHead (b_o_s 1, e_o_s 0, granulepos -1, no flush) and then OpusTags (b_o_s 0, e_o_s 0, granulepos -1, flush). They are numbered pos and pos+1, pos advances by 2 and headerWritten becomes true. |
| `OpusEncoderStream.Encoder.PushEncodedBuffer` | lib/opus-encoder-stream.js:103-127 | The first call pushes the two headers. Every later call pushes the packet held back by the previous call. The new frame becomes the held data packet, with e_o_s 0, flush, the next packet number and granulepos k·frameSize·48000/rate after k frames. samplesWritten becomes k·frameSize and the invariant is kept. |
| `OpusEncoderStream.Encoder.Transform` | lib/opus-encoder-stream.js:38-43 | `_transform` has the same effect as `_pushEncodedBuffer` on the frame. |
| `OpusEncoderStream.Encoder.Flush` | lib/opus-encoder-stream.js:129-136 | Flush pushes the held packet with e_o_s set to 1. The output is then the finished stream. With no prior transform it pushes nothing. |
| `OpusEncoderStream.DataPacketsAt` | lib/opus-encoder-stream.js:116-126 | Data packet i (from 0) carries frame i, packet number i+2 and granulepos (i+1)·frameSize·48000/rate. |
| `OpusEncoderStream.FinishedShape` | lib/opus-encoder-stream.js:100-136 | After n ≥ 1 transforms and a flush the output has n+2 packets: OpusHead, OpusTags, then the n data packets in input order. Only the last data packet is e_o_s 1. A flush with no transform outputs nothing. |
| `OpusEncoderStream.PacketNumbersConsecutive` | lib/opus-encoder-stream.js:29-123 | Every packet's packetno equals its position in the output: 0, 1, 2, … |
| `OpusEncoderStream.HeadersFirstAndOnce` | lib/opus-encoder-stream.js:64-111 | Exactly the first two packets carry a b_o_s value. Only OpusHead is assigned b_o_s 1, OpusTags is assigned 0, and data packets are never assigned b_o_s. Every packet after the headers carries the corresponding input frame as its payload. |
| `OpusEncoderStream.EndOfStreamOnlyLast` | lib/opus-encoder-stream.js:121-133 | In the finished stream exactly the last packet has e_o_s 1 and every other packet has e_o_s 0. |
| `OpusEncoderStream.GranuleIncreasing` | lib/opus-encoder-stream.js:116-122 | With a positive frame size the data packets' granule positions strictly increase. |
| `OpusEncoderStream.EmittedAppendOnly` | lib/opus-encoder-stream.js:105-126 | A transform only appends to the output: the two headers the first time, afterwards the previously held data packet. |
| `OpusEncoderStream.FinishedExtendsEmitted` | lib/opus-encoder-stream.js:129-133 | The finished stream is the pre-flush output plus the held packet, which differs from before only in e_o_s = 1. |
| `OpusEncoderStream.OpusHeadPayload` | lib/opus-encoder-stream.js:47-62 | The identification header payload is 19 bytes long. |
| `OpusEncoderStream.OpusHeadRoundTrip` | lib/opus-encoder-stream.js:47-62 | The payload parses as an RFC 7845 identification header with magic "OpusHead", version 1, the channel byte, pre-skip 3840, the rate as 32-bit little-endian, gain 0 and mapping family 0. |
| `OpusEncoderStream.OpusTagsRoundTrip` | lib/opus-encoder-stream.js:75-88 | The payload parses as an RFC 7845 comment header with magic "OpusTags", vendor "node-opus" (length 9), zero comments and one trailing 0xff byte. |
| `Bytes.U32LE` | lib/opus-encoder-stream.js:77-80 | A 32-bit little-endian field is four bytes. The two round-trip lemmas below show that it is the inverse of the reader. |
| `Bytes.U32LERoundTrip` | lib/opus-encoder-stream.js:77-80 | Reading back a 32-bit little-endian encoding gives the value. |
| `Bytes.ReadU32LERoundTrip` | lib/opus-encoder-stream.js:77-80 | Re-encoding four decoded bytes gives the bytes, so the encoding and the reader are inverses. |
| `Bytes.ToInt32` | src/binding.cc:407 | An explicit serial argument is reduced modulo 2^32 into the signed 32-bit range, and is unchanged when it already fits. |
| `OggBinding.RequireTypedArray` | src/binding.cc:62-66 | A byte-span setter proceeds exactly for a typed array and otherwise raises TypeError "Expected a TypedArray". |
| `OggBinding.RequireNumber` | src/binding.cc:185-189 | A numeric setter proceeds exactly for a Number and otherwise raises TypeError "Expected a Number". |
| `OggBinding.OggPage.constructor` | src/binding.cc:29-34 | A new page holds whatever spans it starts with. The source leaves them uninitialised. |
| `OggBinding.OggPage.GetHeader` | src/binding.cc:73-77 | `getHeader` yields the header span, which is the leading part of the page's wire form. |
| `OggBinding.OggPage.GetBody` | src/binding.cc:93-97 | `getBody` yields the body span, which is the wire form after the header. |
| `OggBinding.OggPage.SetHeader` | src/binding.cc:59-77 | A typed array becomes the header that `getHeader` returns. Anything else raises TypeError and leaves the header unchanged. |
| `OggBinding.OggPage.SetBody` | src/binding.cc:79-97 | A typed array becomes the body that `getBody` returns. Anything else raises TypeError and leaves the body unchanged. |
| `OggBinding.OggPage.ToBuffer` | src/binding.cc:99-107 | The buffer is freshly allocated and has header_len + body_len bytes: the header bytes immediately followed by the body bytes, including when the body is empty. |
| `OggBinding.PageBytesSplit` | src/binding.cc:103-105 | The wire form splits back into header and body at the header length. |
| `OggBinding.OggPacket.constructor` | src/binding.cc:119-124 | A new packet holds whatever field values it starts with. The source leaves them uninitialised. |
| `OggBinding.OggPacket.PacketAsWritten` | src/binding.cc:151-155 | The `packet` getter as written yields a Number, the `bytes` field. Once `packet` has been set, that Number is the payload length. |
| `OggBinding.OggPacket.Packet` | index.d.ts:36 | The `packet` getter as the typings declare it yields the payload as a typed array. Once `packet` has been set, its length is `bytes`. |
| `OggBinding.OggPacket.Bytes` | src/binding.cc:170-174 | `bytes` yields the byte count, which equals the payload length once `packet` has been set. |
| `OggBinding.OggPacket.SetPacket` | src/binding.cc:151-174 | A typed array sets the payload and `bytes` together, so `bytes` equals the payload length afterwards. Anything else raises TypeError and changes neither. The setter never breaks that agreement. |
| `OggBinding.OggPacket.SetBos` | src/binding.cc:176-191 | A Number is stored and read back by `b_o_s`. Anything else raises TypeError and leaves the field unchanged. |
| `OggBinding.OggPacket.SetEos` | src/binding.cc:193-208 | A Number is stored and read back by `e_o_s`. Anything else raises TypeError and leaves the field unchanged. |
| `OggBinding.OggPacket.SetGranulepos` | src/binding.cc:210-225 | A Number is stored and read back by `granulepos`. Anything else raises TypeError and leaves the field unchanged. |
| `OggBinding.OggPacket.SetPacketno` | src/binding.cc:227-242 | A Number is stored and read back by `packetno`. Anything else raises TypeError and leaves the field unchanged. |
| `OggBinding.PacketGetterLosesPayload` | src/binding.cc:151-155 | For every packet the `packet` getter answers the byte count as a Number and never the payload. Once `packet` has been set, the Number is the payload length. |
| `OggBinding.PacketGetterAfterSet` | src/binding.cc:151-174 | After `packet` is set to a one-byte typed array, the getter as written reads back the Number 1. The corrected getter reads back the array. |
| `OggBinding.SerialCounter.constructor` | src/binding.cc:401 | The counter starts at 1 with no serial handed out. |
| `OggBinding.SerialCounter.Next` | src/binding.cc:407 | `serial++` hands out the current value and advances by one. The serials handed out stay 1, 2, 3, … in order. |
| `OggBinding.DefaultSerialsDistinct` | src/binding.cc:401-407 | Default serials strictly increase in construction order, so they never collide, and each lies below the next one to be handed out. |
| `OggBinding.OggStreamState.constructor` | src/binding.cc:408 | A stream state keeps the serial number it was initialised with. |
| `OggBinding.OggStreamState.Create` | src/binding.cc:402-412 | Without an argument the serial is the counter's value and the counter advances. An explicit argument, converted to a C int, is used without touching the counter. A non-zero ogg_stream_init status raises TypeError "ogg_stream_init() failed". |
| `OggBinding.OggSyncPageoutWorker.constructor` | src/binding.cc:353-356 | The worker starts with serialno = packets = -1 and status 0. |
| `OggBinding.OggSyncPageoutWorker.Execute` | src/binding.cc:358-366 | The status is stored. Serial and packet count are taken from the page only for status 1 and otherwise stay -1. |
| `OggBinding.OggSyncPageoutWorker.OnOK` | src/binding.cc:367-372 | The callback gets (status, serialno, packets), and for any status but 1 the last two are -1. |
| `OggBinding.SyncPageout` | src/binding.cc:350-388 | Sync pageout always passes the status through. It reports the page's serial and packet count for status 1 and -1, -1 otherwise. |
| `OggBinding.StreamCallbackArgs` | src/binding.cc:605-622 | The stream result has four entries, the first being the status. The other three are numbers exactly for status 1 (header_len, body_len, eos) and null otherwise. |
| `OggBinding.StreamWorker.constructor` | src/binding.cc:603-604 | The worker holds the caller's page and starts with status 0. |
| `OggBinding.StreamWorker.Execute` | src/binding.cc:636-639 | The libogg status is stored, and the page holds the spans libogg left in it. |
| `OggBinding.StreamWorker.OnOK` | src/binding.cc:605-622 | For status 1 the callback gets (1, header_len, body_len, eos), and (status, null, null, null) otherwise. |
| `OggBinding.StreamPageout` | src/binding.cc:642-693 | Stream pageout and flush leave the page with libogg's spans and report the shaped result for them. |

## Findings

| source | as written | input that shows it | evidently intended | confidence | as-written member | corrected member |
|---|---|---|---|---|---|---|
| src/binding.cc:151-155 | The `packet` getter returns `op.bytes` as a Number. | Set `packet` to a one-byte typed array: reading `packet` gives the Number 1, not the bytes. | index.d.ts:36 declares `packet: Buffer`, so the getter should return the payload bytes. | medium, not executed | `OggBinding.PacketGetterLosesPayload` | `OggBinding.OggPacket.SetPacket` |

The as-written getter is `OggBinding.OggPacket.PacketAsWritten`. The corrected getter is
`OggBinding.OggPacket.Packet`. `OggBinding.PacketGetterAfterSet` runs the input in the
table through `SetPacket` and both getters. The contract of `OggBinding.OggPacket.SetPacket` states the
round trip for the corrected getter: after a successful set, `Packet()` returns the
assigned typed array.

## Left out

- libogg itself is a foreign library whose source is not part of this model. That covers
  `ogg_sync_buffer`, `ogg_sync_wrote`, `ogg_sync_pageout`, `ogg_stream_init`,
  `ogg_stream_pagein`, `ogg_stream_packetin`, `ogg_stream_packetout`, `ogg_stream_pageout`,
  `ogg_stream_flush`, `ogg_stream_clear`, `ogg_page_serialno`, `ogg_page_packets` and
  `ogg_page_eos`. Their return codes, answers and the page spans they fill are parameters.
- The off-thread dispatch of `Napi::AsyncWorker::Queue` is not modelled, because its point
  is concurrency. Each worker is modelled as construct, `Execute`, then `OnOK`, in sequence.
- Buffer lifetime and aliasing are not modelled. The raw `header`, `body` and `packet`
  pointers point into JavaScript-owned memory, and `getHeader`/`getBody` wrap that memory
  without copying. The model holds the bytes by value.
- Module registration and constructor plumbing are host glue: `Init`, `NewInstance`,
  `DefineClass` and the exports. The commented-out NAN-era code is dead.
- The sync write and packet-in workers only pass libogg's status through, so their
  results are not modelled.
- The stream page-in worker never receives the caller's page: it hands libogg a
  default-constructed one. The packet-out worker's result shaping sits in
  `HandleOKCallback`, which N-API never calls. Neither is modelled as behaviour.
- The Node `Transform` machinery is not modelled: the `done` callbacks, the `encoding`
  argument, object mode and the `./binding` import.
- OpusEncoderStream.Encoder.PushEncodedBuffer: the model's `Transform`,
  `PushEncodedBuffer` and `Flush` require that the flush has not run. The encoder itself
  never checks this. It relies on Node's stream, which refuses writes after the end. A
  direct `_pushEncodedBuffer` after `_flush` would push the held packet a second time,
  still with e_o_s 1 (lib/opus-encoder-stream.js:109-111, 130-132). The model does not
  cover that call sequence.
- OpusEncoderStream.Encoder.Create: the source computes the frame size (`rate * 0.04`) and
  the granule step (`frameSize / rate * 48000`) in floating point. The model uses integers,
  with the default frame size rate/25. For every integral frame size the step is then exact
  (`ExactFrameAlways`). Only non-integral frame sizes and floating-point rounding fall
  outside the model.
- OpusEncoderStream.Configure: the JavaScript falsy values are modelled only as "absent or
  zero". NaN, `null`, `false` and `""` behave the same way in the source.
- OpusEncoderStream.Configure: the RangeError message text is not modelled. The error
  carries the rejected rate.
- OpusEncoderStream.OpusHeadPayload: the channel byte is `channels % 256`, which is the
  integer case of the conversion `Buffer.from` applies. Non-integral channel counts are not
  modelled. The rate bytes use `&` and `>>` in the source; for the valid rates these equal
  the divisions used here.
- OpusEncoderStream.Packet: the OpusHead record never sets `flush`. In the source it is
  undefined, which is falsy, and the model uses `false`. Data packets never set `b_o_s`,
  so the wrapper's field is indeterminate there; the model uses `None`.
- OpusEncoderStream.Encoder.Flush: the source sets `e_o_s` on the held packet object in
  place. That object is never aliased with anything already pushed, so the model updates
  a value instead.
- OggBinding.OggPacket.SetBos: Numbers are modelled as integers. Fractional values and
  the int64 conversion limits are not modelled; the same holds for `SetEos`,
  `SetGranulepos` and `SetPacketno`.
- OggBinding.OggStreamState.Create: the explicit argument is modelled as an integer
  already obtained by `ToNumber`. `new OggStreamState(undefined)` gives NaN and hence
  serial 0 in the source, which the model does not cover. The counter's `serial++` is
  unbounded here; in the source, C signed overflow past 2^31-1 is undefined.
- OggBinding.StreamWorker.OnOK: `ogg_page_eos` is asked at callback time and is a parameter
  (`pageEos`) here. `StreamPageoutWorker` and `StreamFlushWorker` differ only in the libogg
  call, which the `flush` field records.
- The initial contents of a fresh `OggPage` or `OggPacket` are uninitialised in the source,
  so the constructors take them as parameters. `OggPacket.Consistent()` holds once
  `packet` has been set, not from construction.
- `test/decoder.js` exercises a decoder whose source is not part of this model.
