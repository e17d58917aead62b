/**
 * The N-API wrapper objects of the Ogg binding: the page and packet records with
 * their validated accessors, the process-wide default serial counter for stream
 * states, and the way the asynchronous workers shape their callback arguments from
 * libogg's return codes. libogg itself is outside the model: its return codes and
 * the values its page queries answer are parameters.
 */
module OggBinding {
  import opened Wrappers
  import opened Bytes

  /** A JavaScript value handed to an accessor: a typed array, an integral Number, or anything else. */
  datatype JsValue = TypedArray(data: seq<byte>) | Number(value: int) | OtherValue

  /** A JavaScript exception raised by the binding. */
  datatype JsError = TypeError(message: string)

  /** An argument passed to a JavaScript callback. */
  datatype CallbackArg = Num(n: int) | Null

  const EXPECTED_TYPED_ARRAY: string := "Expected a TypedArray"
  const EXPECTED_NUMBER: string := "Expected a Number"
  const STREAM_INIT_FAILED: string := "ogg_stream_init() failed"

  /** The check every byte-span setter makes before it stores anything. */
  function RequireTypedArray(value: JsValue): (r: Outcome<JsError>)
    ensures r.Pass? <==> value.TypedArray?
    ensures r.Fail? ==> r.error == TypeError(EXPECTED_TYPED_ARRAY)
  {
    if value.TypedArray? then Pass else Fail(TypeError(EXPECTED_TYPED_ARRAY))
  }

  /** The check every numeric setter makes before it stores anything. */
  function RequireNumber(value: JsValue): (r: Outcome<JsError>)
    ensures r.Pass? <==> value.Number?
    ensures r.Fail? ==> r.error == TypeError(EXPECTED_NUMBER)
  {
    if value.Number? then Pass else Fail(TypeError(EXPECTED_NUMBER))
  }

  /* ---------------- OggPage ---------------- */

  /** The wire form of a page: its header bytes immediately followed by its body bytes. */
  function PageBytes(header: seq<byte>, body: seq<byte>): seq<byte> {
    header + body
  }

  /** The wire form splits back into header and body at the header length. */
  lemma PageBytesSplit(header: seq<byte>, body: seq<byte>)
    ensures |PageBytes(header, body)| == |header| + |body|
    ensures PageBytes(header, body)[..|header|] == header
    ensures PageBytes(header, body)[|header|..] == body
  {
  }

  /** An ogg_page wrapper: the header span and the body span it points at. */
  class OggPage {
    var header: seq<byte>
    var body: seq<byte>

    /** The source leaves the struct uninitialised; the model takes its initial contents as given. */
    constructor (header0: seq<byte>, body0: seq<byte>)
      ensures header == header0 && body == body0
    {
      header, body := header0, body0;
    }

    /**
     * `getHeader`: the bytes the header span points at. The second conjunct is
     * `PageBytesSplit` restated for the getter, so that callers can relate `getHeader`
     * to `toBuffer` without calling the lemma.
     */
    function GetHeader(): (r: seq<byte>)
      reads this
      ensures r == header && PageBytes(header, body)[..|header|] == r
    {
      header
    }

    /** `getBody`: the bytes the body span points at, i.e. `toBuffer` past the header (as above). */
    function GetBody(): (r: seq<byte>)
      reads this
      ensures r == body && PageBytes(header, body)[|header|..] == r
    {
      body
    }

    /** The `header` setter: a TypeError for anything but a typed array, which is then left unchanged. */
    method SetHeader(value: JsValue) returns (r: Outcome<JsError>)
      modifies this`header
      ensures r == RequireTypedArray(value)
      ensures value.TypedArray? ==> GetHeader() == value.data
      ensures !value.TypedArray? ==> GetHeader() == old(GetHeader())
    {
      r := RequireTypedArray(value);
      if r.Fail? {
        return;
      }
      header := value.data;
    }

    /** The `body` setter: a TypeError for anything but a typed array, which is then left unchanged. */
    method SetBody(value: JsValue) returns (r: Outcome<JsError>)
      modifies this`body
      ensures r == RequireTypedArray(value)
      ensures value.TypedArray? ==> GetBody() == value.data
      ensures !value.TypedArray? ==> GetBody() == old(GetBody())
    {
      r := RequireTypedArray(value);
      if r.Fail? {
        return;
      }
      body := value.data;
    }

    /** `toBuffer`: a new buffer of header_len + body_len bytes filled by two copies. */
    method ToBuffer() returns (buff: array<byte>)
      ensures fresh(buff)
      ensures buff.Length == |header| + |body|
      ensures buff[..] == PageBytes(header, body)
    {
      buff := new byte[|body| + |header|];
      for i := 0 to |header|
        invariant forall k :: 0 <= k < i ==> buff[k] == header[k]
      {
        buff[i] := header[i];
      }
      for i := 0 to |body|
        invariant forall k :: 0 <= k < |header| ==> buff[k] == header[k]
        invariant forall k :: 0 <= k < i ==> buff[|header| + k] == body[k]
      {
        buff[|header| + i] := body[i];
      }
      assert forall k :: |header| <= k < buff.Length ==> buff[k] == body[k - |header|] by {
        forall k | |header| <= k < buff.Length
          ensures buff[k] == body[k - |header|]
        {
          assert buff[|header| + (k - |header|)] == body[k - |header|];
        }
      }
    }
  }

  /* ---------------- OggPacket ---------------- */

  /** An ogg_packet wrapper: the payload span, its byte count, and the numeric fields. */
  class OggPacket {
    var payload: seq<byte>
    var bytes: int
    var bos: int
    var eos: int
    var granulepos: int
    var packetno: int

    /** The byte count agrees with the payload; every successful `packet` assignment establishes it. */
    predicate Consistent()
      reads this
    {
      bytes == |payload|
    }

    /** The source leaves the struct uninitialised; the model takes its initial contents as given. */
    constructor (payload0: seq<byte>, bytes0: int, bos0: int, eos0: int, granulepos0: int, packetno0: int)
      ensures payload == payload0 && bytes == bytes0 && bos == bos0 && eos == eos0
      ensures granulepos == granulepos0 && packetno == packetno0
    {
      payload, bytes := payload0, bytes0;
      bos, eos, granulepos, packetno := bos0, eos0, granulepos0, packetno0;
    }

    /** The `packet` getter as written: it answers the byte count, not the payload. */
    function PacketAsWritten(): (r: JsValue)
      reads this
      ensures r.Number? && r.value == bytes
      ensures Consistent() ==> r == Number(|payload|)
    {
      Number(bytes)
    }

    /** The `packet` getter as the typings declare it (`packet: Buffer`): the payload bytes. */
    function Packet(): (r: JsValue)
      reads this
      ensures r.TypedArray? && r.data == payload
      ensures Consistent() ==> |r.data| == bytes
    {
      TypedArray(payload)
    }

    /** The `bytes` getter (there is no setter). */
    function Bytes(): (r: int)
      reads this
      ensures r == bytes
      ensures Consistent() ==> r == |payload|
    {
      bytes
    }

    /** The `b_o_s`, `e_o_s`, `granulepos` and `packetno` getters: the field as a Number. */
    function Bos(): int reads this { bos }
    function Eos(): int reads this { eos }
    function Granulepos(): int reads this { granulepos }
    function Packetno(): int reads this { packetno }

    /** The `packet` setter: payload and byte count are assigned together. */
    method SetPacket(value: JsValue) returns (r: Outcome<JsError>)
      modifies this`payload, this`bytes
      ensures r == RequireTypedArray(value)
      ensures value.TypedArray? ==> Packet() == value && Bytes() == |value.data| && Consistent()
      ensures !value.TypedArray? ==> payload == old(payload) && bytes == old(bytes)
      ensures old(Consistent()) ==> Consistent()
    {
      r := RequireTypedArray(value);
      if r.Fail? {
        return;
      }
      payload := value.data;
      bytes := |value.data|;
    }

    /** The `b_o_s` setter: a TypeError for a non-Number, which leaves the field unchanged. */
    method SetBos(value: JsValue) returns (r: Outcome<JsError>)
      modifies this`bos
      ensures r == RequireNumber(value)
      ensures Bos() == if value.Number? then value.value else old(Bos())
    {
      r := RequireNumber(value);
      if r.Fail? {
        return;
      }
      bos := value.value;
    }

    /** The `e_o_s` setter: a TypeError for a non-Number, which leaves the field unchanged. */
    method SetEos(value: JsValue) returns (r: Outcome<JsError>)
      modifies this`eos
      ensures r == RequireNumber(value)
      ensures Eos() == if value.Number? then value.value else old(Eos())
    {
      r := RequireNumber(value);
      if r.Fail? {
        return;
      }
      eos := value.value;
    }

    /** The `granulepos` setter: a TypeError for a non-Number, which leaves the field unchanged. */
    method SetGranulepos(value: JsValue) returns (r: Outcome<JsError>)
      modifies this`granulepos
      ensures r == RequireNumber(value)
      ensures Granulepos() == if value.Number? then value.value else old(Granulepos())
    {
      r := RequireNumber(value);
      if r.Fail? {
        return;
      }
      granulepos := value.value;
    }

    /** The `packetno` setter: a TypeError for a non-Number, which leaves the field unchanged. */
    method SetPacketno(value: JsValue) returns (r: Outcome<JsError>)
      modifies this`packetno
      ensures r == RequireNumber(value)
      ensures Packetno() == if value.Number? then value.value else old(Packetno())
    {
      r := RequireNumber(value);
      if r.Fail? {
        return;
      }
      packetno := value.value;
    }
  }

  /** The getter as written never yields the payload: it yields the byte count instead. */
  lemma PacketGetterLosesPayload(p: OggPacket)
    ensures p.PacketAsWritten() != p.Packet()
    ensures p.PacketAsWritten() == Number(p.Bytes())
    ensures p.Consistent() ==> p.PacketAsWritten() == Number(|p.payload|)
  {
  }

  /** The concrete input: after `packet = Buffer.from([b])` the getter reads back the Number 1. */
  method PacketGetterAfterSet(p: OggPacket, b: byte) returns (v: JsValue)
    modifies p
    ensures v == Number(1) && v != TypedArray([b])
    ensures p.Packet() == TypedArray([b])
  {
    var _ := p.SetPacket(TypedArray([b]));
    v := p.PacketAsWritten();
  }

  /* ---------------- stream states and their serial numbers ---------------- */

  /**
   * The process-wide `serial` counter. `issued` (ghost) lists the serials it has handed
   * out, in order; they are 1, 2, 3, ...
   */
  class SerialCounter {
    var serial: int
    ghost var issued: seq<int>

    ghost predicate Valid()
      reads this
    {
      serial == |issued| + 1 && forall i :: 0 <= i < |issued| ==> issued[i] == i + 1
    }

    constructor ()
      ensures Valid() && issued == [] && serial == 1
    {
      serial := 1;
      issued := [];
    }

    /** `serial++`: hands out the next default serial. */
    method Next() returns (s: int)
      requires Valid()
      modifies this
      ensures Valid() && issued == old(issued) + [s]
      ensures s == old(serial) && s == |old(issued)| + 1
    {
      s := serial;
      serial := serial + 1;
      issued := issued + [s];
    }
  }

  /** Default serials never collide: each is handed out once. */
  lemma DefaultSerialsDistinct(counter: SerialCounter)
    requires counter.Valid()
    ensures forall i, j :: 0 <= i < j < |counter.issued| ==> counter.issued[i] < counter.issued[j]
    ensures forall i :: 0 <= i < |counter.issued| ==> counter.issued[i] < counter.serial
  {
  }

  /** An ogg_stream_state wrapper, with the serial number it was initialised with. */
  class OggStreamState {
    const serialno: int

    constructor (serialno: int)
      ensures this.serialno == serialno
    {
      this.serialno := serialno;
    }

    /**
     * `new OggStreamState([serialno])`: with no argument the serial comes from the
     * counter, otherwise from the argument converted to a C int (which leaves the
     * counter alone). `initStatus` is what ogg_stream_init returns; anything but 0
     * throws a TypeError.
     */
    static method Create(counter: SerialCounter, arg: Option<int>, initStatus: int) returns (r: Result<OggStreamState, JsError>)
      requires counter.Valid()
      modifies counter
      ensures counter.Valid()
      ensures arg.None? ==> counter.issued == old(counter.issued) + [old(counter.serial)]
      ensures arg.Some? ==> counter.issued == old(counter.issued) && counter.serial == old(counter.serial)
      ensures r.Success? <==> initStatus == 0
      ensures r.Failure? ==> r.error == TypeError(STREAM_INIT_FAILED)
      ensures r.Success? ==> fresh(r.value)
      ensures r.Success? && arg.None? ==> r.value.serialno == old(counter.serial)
      ensures r.Success? && arg.Some? ==> r.value.serialno == ToInt32(arg.value)
    {
      var serialno: int;
      if arg.None? {
        serialno := counter.Next();
      } else {
        serialno := ToInt32(arg.value);
      }
      if initStatus != 0 {
        return Failure(TypeError(STREAM_INIT_FAILED));
      }
      var os := new OggStreamState(serialno);
      return Success(os);
    }
  }

  /* ---------------- asynchronous workers: result shaping ---------------- */

  /** The state an OggSyncPageoutWorker carries from Execute to its callback. */
  class OggSyncPageoutWorker {
    var serialno: int
    var packets: int
    var rtn: int
    ghost var executed: bool

    /** Before and after Execute: a page's serial and packet count are reported only for status 1. */
    ghost predicate Valid()
      reads this
    {
      (!executed ==> rtn == 0) && (rtn != 1 ==> serialno == -1 && packets == -1)
    }

    constructor ()
      ensures Valid() && !executed
      ensures serialno == -1 && packets == -1 && rtn == 0
    {
      serialno, packets, rtn := -1, -1, 0;
      executed := false;
    }

    /**
     * `Execute`: `status` is what ogg_sync_pageout returns, `pageSerial` and
     * `pagePackets` what ogg_page_serialno and ogg_page_packets answer for the page.
     */
    method Execute(status: int, pageSerial: int, pagePackets: int)
      requires Valid() && !executed
      modifies this
      ensures Valid() && executed
      ensures rtn == status
      ensures serialno == (if status == 1 then pageSerial else -1)
      ensures packets == (if status == 1 then pagePackets else -1)
    {
      rtn := status;
      if rtn == 1 {
        serialno := pageSerial;
        packets := pagePackets;
      }
      executed := true;
    }

    /** `OnOK`: the callback receives (status, serialno, packets). */
    method OnOK() returns (args: seq<CallbackArg>)
      requires Valid()
      ensures args == [Num(rtn), Num(serialno), Num(packets)]
      ensures rtn != 1 ==> args[1..] == [Num(-1), Num(-1)]
    {
      args := [Num(rtn), Num(serialno), Num(packets)];
    }
  }

  /**
   * `ogg_sync_pageout(oy, cb)`: the worker runs and its callback gets the status, and
   * the page's serial and packet count only when a page was found (status 1).
   */
  method SyncPageout(status: int, pageSerial: int, pagePackets: int) returns (args: seq<CallbackArg>)
    ensures |args| == 3 && args[0] == Num(status)
    ensures status == 1 ==> args[1..] == [Num(pageSerial), Num(pagePackets)]
    ensures status != 1 ==> args[1..] == [Num(-1), Num(-1)]
  {
    var w := new OggSyncPageoutWorker();
    w.Execute(status, pageSerial, pagePackets);
    args := w.OnOK();
  }

  /** The arguments StreamWorker's callback receives, as a function of the status and the page. */
  function StreamCallbackArgs(rtn: int, headerLen: int, bodyLen: int, pageEos: int): (r: seq<CallbackArg>)
    ensures |r| == 4 && r[0] == Num(rtn)
    ensures rtn == 1 <==> r[1].Num?
    ensures rtn == 1 <==> r[2].Num? && r[3].Num?
    ensures rtn != 1 ==> r[1..] == [Null, Null, Null]
    ensures rtn == 1 ==> r[1..] == [Num(headerLen), Num(bodyLen), Num(pageEos)]
  {
    if rtn == 1 then [Num(rtn), Num(headerLen), Num(bodyLen), Num(pageEos)]
    else [Num(rtn), Null, Null, Null]
  }

  /**
   * The shared worker behind ogg_stream_pageout and ogg_stream_flush: `flush` says
   * which libogg call Execute makes. The page is the caller's OggPage, which libogg
   * fills in place.
   */
  class StreamWorker {
    const flush: bool
    const page: OggPage
    var rtn: int

    constructor (flush: bool, page: OggPage)
      ensures this.flush == flush && this.page == page && rtn == 0
    {
      this.flush, this.page := flush, page;
      rtn := 0;
    }

    /**
     * `Execute`: `status` is what ogg_stream_pageout (or ogg_stream_flush) returns and
     * `header`, `body` the spans it leaves in the page.
     */
    method Execute(status: int, header: seq<byte>, body: seq<byte>)
      modifies this, page
      ensures rtn == status
      ensures page.header == header && page.body == body
    {
      rtn := status;
      page.header, page.body := header, body;
    }

    /**
     * `OnOK`: (status, header_len, body_len, eos) for status 1, (status, null, null,
     * null) otherwise. `pageEos` is what ogg_page_eos answers for the page.
     */
    method OnOK(pageEos: int) returns (args: seq<CallbackArg>)
      ensures args == StreamCallbackArgs(rtn, |page.header|, |page.body|, pageEos)
      ensures rtn == 1 ==> args == [Num(1), Num(|page.header|), Num(|page.body|), Num(pageEos)]
      ensures rtn != 1 ==> args == [Num(rtn), Null, Null, Null]
    {
      if rtn == 1 {
        args := [Num(rtn), Num(|page.header|), Num(|page.body|), Num(pageEos)];
      } else {
        args := [Num(rtn), Null, Null, Null];
      }
    }
  }

  /**
   * `ogg_stream_pageout(os, page, cb)` and `ogg_stream_flush(os, page, cb)`: the worker
   * runs against the caller's page, then its callback gets the shaped result.
   */
  method StreamPageout(flush: bool, page: OggPage, status: int, header: seq<byte>, body: seq<byte>, pageEos: int)
    returns (args: seq<CallbackArg>)
    modifies page
    ensures page.header == header && page.body == body
    ensures args == StreamCallbackArgs(status, |header|, |body|, pageEos)
  {
    var w := new StreamWorker(flush, page);
    w.Execute(status, header, body);
    args := w.OnOK(pageEos);
  }
}
