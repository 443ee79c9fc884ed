/**
 * What the packet-level send and receive loops of `IPCConnection` do, as
 * functions of the socket's scripts and cursors: a packet sent as header then payload,
 * a header read that may find nothing waiting, and a whole packet read.
 */
module Framing {
  import opened Base
  import opened Wire
  import opened Transport

  /** What one read of a whole packet yields: nothing waiting, a closed peer, or a frame. */
  datatype FrameOutcome = Idle | Hangup | Whole(frame: Frame)

  /** What `ReceivePacketHeader` reports. */
  datatype HeaderOutcome =
    | NoData                       // -1: nothing to read yet
    | ConnectionClosed             // 0: the peer closed
    | Got(header: PacketHeader)    // 1: a whole header

  /** Sending a packet: the header's loop, then, if it completed, the payload's loop from where the header's left the cursor. */
  function PacketSending(script: seq<Io>, at: nat, size: nat): (o: SendRun)
    ensures o.written <= HeaderSize + size && (o.result == Ok(true) <==> o.written == HeaderSize + size)
    ensures o.result.Err? ==> o.result == Err(TransportError)
    ensures at <= o.at && (o.at == at || o.at <= |script|)
  {
    var h := Sending(script, at, HeaderSize);
    if h.result != Ok(true) then h
    else
      var p := Sending(script, h.at, size);
      SendRun(p.result, p.at, HeaderSize + p.written)
  }

  /**
   * A packet goes out whole exactly when the header's loop gets all eight
   * bytes through and the payload's loop then gets all of its bytes through;
   * otherwise the first reply that is not `Done` is reported.
   */
  lemma PacketSendingOutcome(script: seq<Io>, at: nat, size: nat)
    ensures var rest := Sending(script, at, HeaderSize).at;
      PacketSending(script, at, size).result ==
        if HeaderSize > Capacity(script, at) then Stop(script, at)
        else if size > Capacity(script, rest) then Stop(script, rest)
        else Ok(true)
  {
    SendingOutcome(script, at, HeaderSize);
    SendingOutcome(script, Sending(script, at, HeaderSize).at, size);
  }

  /** The end of a header read: its outcome, the receive cursor it leaves, and how many inbox bytes it took. */
  datatype HeaderRun = HeaderRun(result: Result<HeaderOutcome>, at: nat, taken: nat)

  /** A loop interrupted by `stop`, as `ReceivePacketHeader` reports it: a throw passes through, anything else is a closed peer. */
  function Interrupted(stop: Result<bool>): Result<HeaderOutcome> {
    match stop
    case Err(e) => Err(e)
    case Ok(_) => Ok(ConnectionClosed)
  }

  /**
   * `ReceivePacketHeader`: one read asking for eight bytes; if it delivers
   * none the header is not there yet, otherwise a loop reads the rest.
   */
  function HeaderReading(script: seq<Io>, at: nat, inbox: seq<Byte>): (o: HeaderRun)
    ensures o.taken <= |inbox| && at <= o.at && (o.at == at || o.at <= |script|)
    ensures o.result.Ok? && o.result.value.Got? ==>
      o.taken == HeaderSize && o.result.value.header == DecodeHeader(inbox[..HeaderSize])
    ensures o.result == Ok(NoData) ==> o.taken == 0
    ensures o.result != Ok(ConnectionClosed) ==> at < o.at <= |script|
  {
    var c := Call(script, at, |inbox|, HeaderSize);
    if c.result != Ok(true) then HeaderRun(Interrupted(c.result), c.at, 0)
    else if c.count == 0 then HeaderRun(Ok(NoData), c.at, 0)
    else
      var o := Receiving(script, c.at, |inbox| - c.count, HeaderSize - c.count);
      var result := if o.result == Ok(true) then Ok(Got(DecodeHeader(inbox[..HeaderSize]))) else Interrupted(o.result);
      HeaderRun(result, o.at, o.taken + c.count)
  }

  /**
   * A header read finds nothing exactly when its first reply succeeds
   * without delivering a byte; it gets a whole header exactly when that reply
   * delivers something and the inbox and the `Done` replies at the cursor
   * cover eight bytes; otherwise it reports the first reply that is not `Done`.
   */
  lemma HeaderReadingOutcome(script: seq<Io>, at: nat, inbox: seq<Byte>)
    ensures var r := HeaderReading(script, at, inbox).result;
      && (r == Ok(NoData) <==> at < |script| && script[at].Done? && (script[at].count == 0 || inbox == []))
      && (r.Ok? && r.value.Got? <==>
            at < |script| && script[at].Done? && script[at].count > 0 && HeaderSize <= |inbox| && HeaderSize <= Capacity(script, at))
      && (r != Ok(NoData) && !(r.Ok? && r.value.Got?) ==> r == Interrupted(Stop(script, at)))
  {
    if at < |script| && script[at].Done? {
      var c := Call(script, at, |inbox|, HeaderSize);
      assert Capacity(script, at) == script[at].count + Capacity(script, at + 1);
      assert Stop(script, at) == Stop(script, at + 1);
      if c.count > 0 {
        ReceivingOutcome(script, c.at, |inbox| - c.count, HeaderSize - c.count);
      }
    }
  }

  /** The end of a packet read: its outcome, the receive cursor it leaves, and how many inbox bytes it took. */
  datatype FrameRun = FrameRun(result: Result<FrameOutcome>, at: nat, taken: nat)

  /** A header read, then, for a whole header, a loop reading the payload it announces. */
  function FrameReading(script: seq<Io>, at: nat, inbox: seq<Byte>): (o: FrameRun)
    ensures o.taken <= |inbox| && at <= o.at && (o.at == at || o.at <= |script|)
    ensures o.result.Ok? && o.result.value.Whole? ==>
      WellFormed(o.result.value.frame) && FrameBytes(o.result.value.frame) == inbox[..o.taken]
    ensures o.result == Ok(Idle) ==> o.taken == 0
    ensures o.result != Ok(Hangup) ==> at < o.at <= |script|
  {
    var h := HeaderReading(script, at, inbox);
    match h.result
    case Err(e) => FrameRun(Err(e), h.at, h.taken)
    case Ok(NoData) => FrameRun(Ok(Idle), h.at, h.taken)
    case Ok(ConnectionClosed) => FrameRun(Ok(Hangup), h.at, h.taken)
    case Ok(Got(header)) =>
      var p := Receiving(script, h.at, |inbox| - HeaderSize, header.length);
      match p.result
      case Err(e) => FrameRun(Err(e), p.at, HeaderSize + p.taken)
      case Ok(false) => FrameRun(Ok(Hangup), p.at, HeaderSize + p.taken)
      case Ok(true) =>
        var frame := Frame(header, inbox[HeaderSize..HeaderSize + header.length]);
        HeaderBytesRoundTrip(inbox[..HeaderSize]);
        assert inbox[..HeaderSize + header.length] == inbox[..HeaderSize] + frame.payload;
        FrameRun(Ok(Whole(frame)), p.at, HeaderSize + header.length)
  }

  /**
   * A packet read finds nothing exactly when its header read does; it yields
   * a frame exactly when a whole header arrives and the inbox and the
   * `Done` replies after it cover the payload the header announces.
   */
  lemma FrameReadingOutcome(script: seq<Io>, at: nat, inbox: seq<Byte>)
    ensures var h := HeaderReading(script, at, inbox);
      var r := FrameReading(script, at, inbox).result;
      && (r == Ok(Idle) <==> h.result == Ok(NoData))
      && (r.Ok? && r.value.Whole? <==>
            h.result.Ok? && h.result.value.Got?
            && h.result.value.header.length <= |inbox| - HeaderSize
            && h.result.value.header.length <= Capacity(script, h.at))
  {
    var h := HeaderReading(script, at, inbox);
    if h.result.Ok? && h.result.value.Got? {
      ReceivingOutcome(script, h.at, |inbox| - HeaderSize, h.result.value.header.length);
    }
  }

  /** A whole frame read off the front of the inbox is the first frame the inbox splits into. */
  lemma FrameReadingSplits(script: seq<Io>, at: nat, inbox: seq<Byte>)
    requires FrameReading(script, at, inbox).result.Ok? && FrameReading(script, at, inbox).result.value.Whole?
    ensures var o := FrameReading(script, at, inbox);
      SplitFrames(inbox) == [o.result.value.frame] + SplitFrames(inbox[o.taken..])
  {
    var o := FrameReading(script, at, inbox);
    assert inbox == FrameBytes(o.result.value.frame) + inbox[o.taken..];
    SplitFront(o.result.value.frame, inbox[o.taken..]);
  }
}
