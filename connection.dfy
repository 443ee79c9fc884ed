/**
 * `IPCConnection`: opening the first answering endpoint, the handshake,
 * framed sends and receives, polling and dispatching inbound packets, and
 * sending presence updates.
 */
module Rpc {
  import opened Base
  import opened Wire
  import opened Json
  import opened Paths
  import opened Presence
  import opened Envelope
  import opened Transport
  import opened Framing

  const RpcVersion: int := 1

  /** The handler calls the connection makes, in the order it makes them. */
  datatype Event =
    | OnConnect
    | OnDisconnect(code: Int32, message: string)
    | OnReady(user: User)
    | OnError(code: Int32, message: string)

  /** What the process sees of its host: the platform, the environment variables, and who listens where. */
  datatype Environment = Environment(platform: Platform, variables: map<string, string>, peers: map<string, Peer>)

  function PeerAt(env: Environment, path: string): Peer {
    if path in env.peers then env.peers[path] else Nobody
  }

  /** The endpoints tried, in order. */
  function Endpoints(env: Environment): seq<string> {
    Candidates(Prefix(env.platform, env.variables))
  }

  /**
   * The index of the first endpoint that does not refuse, or `|paths|` when
   * all refuse. An endpoint that throws stops the search like one that accepts.
   */
  function FirstAnswering(env: Environment, paths: seq<string>): (k: nat)
    ensures k <= |paths|
    ensures forall j :: 0 <= j < k ==> PeerAt(env, paths[j]).open == Refuses
    ensures k < |paths| ==> PeerAt(env, paths[k]).open != Refuses
    decreases |paths|
  {
    if |paths| == 0 || PeerAt(env, paths[0]).open != Refuses then 0
    else
      var k := FirstAnswering(env, paths[1..]);
      assert forall j :: 1 <= j < k + 1 ==> paths[j] == paths[1..][j - 1];
      k + 1
  }

  // ---- what goes on the wire ----

  /** The frame a JSON packet becomes: the dumped text, its length cut to the 32-bit size parameter. */
  function JsonFrame(opcode: Word, text: seq<Byte>): (f: Frame)
    ensures WellFormed(f) && f.header.opcode == opcode && f.payload <= text
    ensures |text| < 0x1_0000_0000 ==> f.payload == text
  {
    var size := TruncateToWord(|text|);
    Frame(PacketHeader(opcode, size), text[..size])
  }

  /** A send of `f` leaves all of it on the wire when it reports success, and a proper prefix of it otherwise. */
  predicate Transmitted(before: seq<Byte>, after: seq<Byte>, f: Frame, r: Result<bool>) {
    if r == Ok(true) then after == before + FrameBytes(f)
    else before <= after < before + FrameBytes(f)
  }

  /** The same for a JSON packet, whose dump may throw before anything is sent. */
  predicate JsonTransmitted(before: seq<Byte>, after: seq<Byte>, opcode: Word, text: Option<seq<Byte>>, r: Result<bool>) {
    match text
    case None => r == Err(TypeError) && after == before
    case Some(t) => Transmitted(before, after, JsonFrame(opcode, t), r)
  }

  function HandshakeJson(applicationId: string): Json {
    JObject(map["v" := JInt(RpcVersion), "client_id" := JString(applicationId)])
  }

  /** The answer to a Ping carrying `ping`: a Frame packet whose payload is a Pong header followed by the ping bytes. */
  function PongFrame(ping: seq<Byte>): (f: Frame)
    requires |ping| < 0x1_0000_0000
    ensures WellFormed(f) && f.header.opcode == OpFrame
    ensures f.payload <= EncodeHeader(PacketHeader(OpPong, |ping|)) + ping
  {
    var reply := EncodeHeader(PacketHeader(OpPong, |ping|)) + ping;
    var size := TruncateToWord(|reply|);
    Frame(PacketHeader(OpFrame, size), reply[..size])
  }

  /** A ping short enough that the 32-bit size does not wrap is echoed whole, as one well-formed frame. */
  lemma PongEchoes(ping: seq<Byte>)
    requires |ping| + HeaderSize < 0x1_0000_0000
    ensures var f := PongFrame(ping);
      && WellFormed(f)
      && f.header == PacketHeader(OpFrame, HeaderSize + |ping|)
      && DecodeHeader(f.payload[..HeaderSize]) == PacketHeader(OpPong, |ping|)
      && f.payload[HeaderSize..] == ping
      && SplitFrames(FrameBytes(f)) == [f]
  {
    var f := PongFrame(ping);
    var h := PacketHeader(OpPong, |ping|);
    assert f.payload == EncodeHeader(h) + ping;
    assert f.payload[..HeaderSize] == EncodeHeader(h);
    HeaderRoundTrip(h);
    SplitFront(f, []);
    assert FrameBytes(f) + [] == FrameBytes(f);
  }

  // ---- how the connection reacts to inbound messages ----

  /** The part of the connection's state that inbound messages change. */
  datatype Status = Status(ready: bool, user: User, code: Int32, message: string)

  /** A handler's outcome: its result, the new status and the events it fired. */
  datatype Reaction = Reaction(result: Result<bool>, status: Status, fired: seq<Event>)

  /** Whether `j` carries both fields an error report reads. */
  predicate HasErrorFields(j: Json) {
    HasInt(j, "code") && HasString(j, "message")
  }

  /**
   * Reads `code`, then `message`; the first read that throws stops it, so a
   * failing `message` read leaves the new code in place. Readiness and the
   * user are never touched.
   */
  function TakeError(s: Status, j: Json, success: Result<bool>, fire: bool): (r: Reaction)
    ensures r.result == if HasErrorFields(j) then success else Err(TypeError)
    ensures r.status.ready == s.ready && r.status.user == s.user
    ensures r.status.code == if HasInt(j, "code") then ErrorCode(j).value else s.code
    ensures r.status.message == if HasErrorFields(j) then j.fields["message"].s else s.message
    ensures r.fired == if fire && HasErrorFields(j) then [OnError(r.status.code, r.status.message)] else []
  {
    match ErrorCode(j)
    case Err(e) => Reaction(Err(e), s, [])
    case Ok(code) =>
      match ErrorMessage(j)
      case Err(e) => Reaction(Err(e), s.(code := code), [])
      case Ok(msg) => Reaction(success, s.(code := code, message := msg), if fire then [OnError(code, msg)] else [])
  }

  /**
   * A Frame packet whose payload parsed to `message` (`None`: the parser
   * threw). It never closes the connection; it fires at most one event, and
   * only a first READY changes readiness or the user.
   */
  function OnFrame(s: Status, message: Option<Json>): (r: Reaction)
    ensures message.None? ==> r == Reaction(Err(ParseError), s, [])
    ensures r.result != Ok(false)
    ensures r.result.Err? ==> r.fired == []
    ensures r.fired == [] || r.fired == [OnReady(r.status.user)] || r.fired == [OnError(r.status.code, r.status.message)]
    ensures r.fired == [OnReady(r.status.user)] ==> !s.ready && r.status.ready
    ensures r.status.ready != s.ready || r.status.user != s.user ==> r.fired == [OnReady(r.status.user)]
  {
    match message
    case None => Reaction(Err(ParseError), s, [])
    case Some(j) =>
      match Classify(j)
      case ReadyEvent(u) =>
        if !s.ready && u.Some? then
          match DecodeUser(u.value)
          case Err(e) => Reaction(Err(e), s, [])
          case Ok(user) => Reaction(Ok(true), s.(ready := true, user := user), [OnReady(user)])
        else Reaction(Ok(true), s, [])
      case ErrorEvent(data) =>
        if data.Some? then TakeError(s, data.value, Ok(true), true) else Reaction(Ok(true), s, [])
      case OtherMessage => Reaction(Ok(true), s, [])
  }

  /** A Close packet: store its code and message, then report the connection closed; it never keeps the connection and fires nothing. */
  function OnClose(s: Status, message: Option<Json>): (r: Reaction)
    ensures r.result != Ok(true) && r.fired == []
    ensures r.result == Ok(false) <==> message.Some? && HasErrorFields(message.value)
    ensures r.status.ready == s.ready && r.status.user == s.user
  {
    match message
    case None => Reaction(Err(ParseError), s, [])
    case Some(j) => TakeError(s, j, Ok(false), false)
  }

  /** Once ready, no message changes the status or fires an event, except an ERROR event. */
  lemma ReadyIsLatched(s: Status, message: Option<Json>)
    requires s.ready
    requires message.Some? ==> !Classify(message.value).ErrorEvent?
    ensures OnFrame(s, message) == Reaction(if message.None? then Err(ParseError) else Ok(true), s, [])
  {
  }

  /**
   * Any READY event whose `data.user` is `uj`, on a connection not yet ready:
   * a user that decodes makes the connection ready with it and fires `OnReady`;
   * one that does not throws, changing nothing.
   */
  lemma ReadyDecodesUser(s: Status, j: Json, uj: Json)
    requires !s.ready && Classify(j) == ReadyEvent(Some(uj))
    ensures DecodeUser(uj).Ok? ==>
      var u := DecodeUser(uj).value;
      OnFrame(s, Some(j)) == Reaction(Ok(true), s.(ready := true, user := u), [OnReady(u)])
    ensures DecodeUser(uj).Err? ==> OnFrame(s, Some(j)) == Reaction(Err(TypeError), s, [])
  {
  }

  /** Any ERROR event that carries `data` is read as an error report, whatever its `cmd` and whether or not the connection is ready. */
  lemma ErrorEventTakesError(s: Status, j: Json, data: Json)
    requires Classify(j) == ErrorEvent(Some(data))
    ensures OnFrame(s, Some(j)) == TakeError(s, data, Ok(true), true)
  {
  }

  /** The READY event the client sends first makes the connection ready with the user it carries. */
  lemma ReadyTakesUser(s: Status, u: User)
    requires !s.ready
    ensures var j := JObject(map[
              "cmd" := JString("DISPATCH"), "evt" := JString("READY"),
              "data" := JObject(map["user" := UserJson(u)])]);
            OnFrame(s, Some(j)) == Reaction(Ok(true), s.(ready := true, user := u), [OnReady(u)])
  {
    UserRoundTrip(u);
  }

  /** An ERROR event is reported whatever its `cmd` says. */
  lemma ErrorIgnoresCommand(s: Status, cmd: string, code: Int32, msg: string)
    ensures var j := JObject(map[
              "cmd" := JString(cmd), "evt" := JString("ERROR"),
              "data" := JObject(map["code" := JInt(code), "message" := JString(msg)])]);
            OnFrame(s, Some(j)) == Reaction(Ok(true), s.(code := code, message := msg), [OnError(code, msg)])
  {
    var data := JObject(map["code" := JInt(code), "message" := JString(msg)]);
    assert ErrorCode(data) == Ok(code);
    assert ErrorMessage(data) == Ok(msg);
  }

  /** An ERROR event without a readable message throws, but its code has already been stored. */
  lemma ErrorCodeOutlivesBadMessage(s: Status, cmd: string, code: Int32)
    ensures var j := JObject(map[
              "cmd" := JString(cmd), "evt" := JString("ERROR"),
              "data" := JObject(map["code" := JInt(code)])]);
            OnFrame(s, Some(j)) == Reaction(Err(TypeError), s.(code := code), [])
  {
    var data := JObject(map["code" := JInt(code)]);
    assert ErrorCode(data) == Ok(code);
    assert ErrorMessage(data).Err?;
  }

  /** Any Close packet that parses is read as an error report that ends the connection without firing anything. */
  lemma CloseTakesError(s: Status, j: Json)
    ensures OnClose(s, Some(j)) == TakeError(s, j, Ok(false), false)
  {
  }

  /** A Close packet with a code and a message stores both and closes. */
  lemma CloseStoresReason(s: Status, code: Int32, msg: string)
    ensures var j := JObject(map["code" := JInt(code), "message" := JString(msg)]);
            OnClose(s, Some(j)) == Reaction(Ok(false), s.(code := code, message := msg), [])
  {
    var j := JObject(map["code" := JInt(code), "message" := JString(msg)]);
    assert ErrorCode(j) == Ok(code);
    assert ErrorMessage(j) == Ok(msg);
  }

  // ---- what one poll does, as a function of the socket's scripts and cursors ----

  /** Sending a JSON packet: nothing is sent when the dump throws. */
  function JsonSending(script: seq<Io>, at: nat, text: Option<seq<Byte>>): SendRun {
    match text
    case None => SendRun(Err(TypeError), at, 0)
    case Some(t) => PacketSending(script, at, TruncateToWord(|t|))
  }

  /** What handling one frame does: the handler's reaction, where the send cursor ends, and the bytes written. */
  datatype Handled = Handled(reaction: Reaction, at: nat, wrote: seq<Byte>)

  /**
   * `HandlePacket` on a frame read whole: Frame and Close packets go to their
   * handlers, a Ping is answered by a Pong sent from the send cursor `at`,
   * and every other opcode is accepted and ignored.
   */
  function Handle(parse: seq<Byte> -> Option<Json>, s: Status, f: Frame, script: seq<Io>, at: nat): (h: Handled)
    requires WellFormed(f)
    ensures f.header.opcode != OpPing ==> h.at == at && h.wrote == []
    ensures f.header.opcode == OpFrame ==> h.reaction == OnFrame(s, parse(f.payload))
    ensures f.header.opcode == OpClose ==> h.reaction == OnClose(s, parse(f.payload))
    ensures f.header.opcode !in {OpFrame, OpClose} ==> h.reaction.status == s && h.reaction.fired == []
    ensures f.header.opcode !in {OpFrame, OpClose, OpPing} ==> h.reaction.result == Ok(true)
    ensures f.header.opcode == OpPing ==> at <= h.at && h.wrote <= FrameBytes(PongFrame(f.payload))
    ensures f.header.opcode == OpPing ==> (h.reaction.result == Ok(true) <==> h.wrote == FrameBytes(PongFrame(f.payload)))
  {
    if f.header.opcode == OpFrame then Handled(OnFrame(s, parse(f.payload)), at, [])
    else if f.header.opcode == OpClose then Handled(OnClose(s, parse(f.payload)), at, [])
    else if f.header.opcode == OpPing then
      var pong := PongFrame(f.payload);
      var o := PacketSending(script, at, pong.header.length);
      Handled(Reaction(o.result, s, []), o.at, FrameBytes(pong)[..o.written])
    else Handled(Reaction(Ok(true), s, []), at, [])
  }

  /** What handling a frame does, as a function of the status before, the frame, the send script and the send cursor. */
  type Handler = (Status, Frame, seq<Io>, nat) -> Handled

  /** `handler` is `Handle` with the parser `parse`, on every frame `Handle` takes. */
  ghost predicate Handles(handler: Handler, parse: seq<Byte> -> Option<Json>)
  {
    forall s, f, send, at {:trigger Handle(parse, s, f, send, at)} ::
      WellFormed(f) ==> handler(s, f, send, at) == Handle(parse, s, f, send, at)
  }

  /** The socket as `Poll` sees it: the receive cursor and inbox, and the send cursor and everything sent. */
  datatype Line = Line(recvAt: nat, inbox: seq<Byte>, sendAt: nat, sent: seq<Byte>)

  /** The end of a poll: its result, the status, the events fired by handlers, the frames read whole, and the socket. */
  datatype PollEnd = PollEnd(result: Result<bool>, status: Status, fired: seq<Event>, frames: seq<Frame>, line: Line)

  /** The end `e` of a poll, seen from before the rounds that fired `fired` and read `frames`. */
  function After(fired: seq<Event>, frames: seq<Frame>, e: PollEnd): PollEnd {
    e.(fired := fired + e.fired, frames := frames + e.frames)
  }

  /** Two stretches of rounds make one. */
  lemma AfterAfter(fired: seq<Event>, frames: seq<Frame>, more: seq<Event>, read: seq<Frame>, e: PollEnd)
    ensures After(fired, frames, After(more, read, e)) == After(fired + more, frames + read, e)
  {
    assert fired + (more + e.fired) == fired + more + e.fired;
    assert frames + (read + e.frames) == frames + read + e.frames;
  }

  /** One round of `Poll`: whether the loop goes on, and the end of the poll if it stops here. */
  datatype Turn = Turn(more: bool, end: PollEnd)

  /**
   * One round of `Poll` over the scripts `recv` and `send`: read a packet;
   * nothing waiting stops the poll with `Ok(true)`, a closed peer with
   * `Ok(false)`, a throw with that error; a frame read whole is handled by
   * `handler`, and the poll goes on only when its reaction is `Ok(true)`.
   */
  function Round(handler: Handler, recv: seq<Io>, send: seq<Io>, s: Status, line: Line): (t: Turn)
    ensures t.more ==> t.end.result == Ok(true) && line.recvAt < t.end.line.recvAt <= |recv|
    ensures line.recvAt <= t.end.line.recvAt && line.sent <= t.end.line.sent
  {
    var rd := FrameReading(recv, line.recvAt, line.inbox);
    var read := line.(recvAt := rd.at, inbox := line.inbox[rd.taken..]);
    match rd.result
    case Err(e) => Turn(false, PollEnd(Err(e), s, [], [], read))
    case Ok(Idle) => Turn(false, PollEnd(Ok(true), s, [], [], read))
    case Ok(Hangup) => Turn(false, PollEnd(Ok(false), s, [], [], read))
    case Ok(Whole(f)) =>
      var h := handler(s, f, send, line.sendAt);
      var handled := read.(sendAt := h.at, sent := line.sent + h.wrote);
      Turn(h.reaction.result == Ok(true), PollEnd(h.reaction.result, h.reaction.status, h.reaction.fired, [f], handled))
  }

  /** `Poll`: rounds one after the other, until one stops the loop. */
  function PollRun(handler: Handler, recv: seq<Io>, send: seq<Io>, s: Status, line: Line): (e: PollEnd)
    ensures line.recvAt <= e.line.recvAt && line.sent <= e.line.sent
    decreases |recv| - line.recvAt
  {
    var t := Round(handler, recv, send, s, line);
    if t.more then After(t.end.fired, t.end.frames, PollRun(handler, recv, send, t.end.status, t.end.line))
    else t.end
  }

  /**
   * What one round reads: either no frame, and then the poll stops, having
   * left the inbox alone if it reports `Ok(true)`; or one well-formed frame
   * off the front of the inbox, the first one the inbox splits into, after
   * which the poll goes on exactly when the round reports `Ok(true)`.
   */
  lemma RoundReads(handler: Handler, recv: seq<Io>, send: seq<Io>, s: Status, line: Line)
    ensures var t := Round(handler, recv, send, s, line);
      && (t.end.frames == [] ==> !t.more && (t.end.result == Ok(true) ==> t.end.line.inbox == line.inbox))
      && (t.end.frames != [] ==>
            && |t.end.frames| == 1 && WellFormed(t.end.frames[0])
            && (t.more <==> t.end.result == Ok(true))
            && line.inbox == FrameBytes(t.end.frames[0]) + t.end.line.inbox
            && SplitFrames(line.inbox) == [t.end.frames[0]] + SplitFrames(t.end.line.inbox))
  {
    var rd := FrameReading(recv, line.recvAt, line.inbox);
    if rd.result.Ok? && rd.result.value.Whole? {
      FrameReadingSplits(recv, line.recvAt, line.inbox);
      assert line.inbox == line.inbox[..rd.taken] + line.inbox[rd.taken..];
    } else if rd.result == Ok(Idle) {
      assert line.inbox[0..] == line.inbox;
    }
  }

  /** With `Handle` as the handler, a round never moves the send cursor backwards either. */
  lemma RoundSendsForward(handler: Handler, parse: seq<Byte> -> Option<Json>, recv: seq<Io>, send: seq<Io>, s: Status, line: Line)
    requires Handles(handler, parse)
    ensures line.sendAt <= Round(handler, recv, send, s, line).end.line.sendAt
  {
    var rd := FrameReading(recv, line.recvAt, line.inbox);
    if rd.result.Ok? && rd.result.value.Whole? {
      var h := Handle(parse, s, rd.result.value.frame, send, line.sendAt);
    }
  }

  /** The frames a poll reads are well formed and come off the front of the inbox one after the other. */
  lemma {:induction false} PollReadsFrames(handler: Handler, recv: seq<Io>, send: seq<Io>, s: Status, line: Line)
    ensures var e := PollRun(handler, recv, send, s, line);
      && (forall i :: 0 <= i < |e.frames| ==> WellFormed(e.frames[i]))
      && Stream(e.frames) <= line.inbox
    decreases |recv| - line.recvAt
  {
    var e := PollRun(handler, recv, send, s, line);
    var t := Round(handler, recv, send, s, line);
    RoundReads(handler, recv, send, s, line);
    if t.end.frames == [] {
      assert e == t.end && Stream(e.frames) == [];
    } else {
      var f := t.end.frames[0];
      assert t.end.frames == [f];
      if t.more {
        var more := PollRun(handler, recv, send, t.end.status, t.end.line);
        PollReadsFrames(handler, recv, send, t.end.status, t.end.line);
        assert e.frames == [f] + more.frames;
        StreamCons(f, more.frames);
        PrefixCons(FrameBytes(f), Stream(more.frames), t.end.line.inbox);
      } else {
        StreamCons(f, []);
      }
    }
  }

  /** A poll that ends with nothing more waiting has consumed exactly the frames it read. */
  lemma {:induction false} PollConsumesFrames(handler: Handler, recv: seq<Io>, send: seq<Io>, s: Status, line: Line)
    ensures var e := PollRun(handler, recv, send, s, line);
      e.result == Ok(true) ==> line.inbox == Stream(e.frames) + e.line.inbox
    decreases |recv| - line.recvAt
  {
    var t := Round(handler, recv, send, s, line);
    RoundReads(handler, recv, send, s, line);
    if t.end.frames == [] {
      ConsumedNone(line.inbox);
    } else if t.more {
      var f := t.end.frames[0];
      assert t.end.frames == [f];
      var more := PollRun(handler, recv, send, t.end.status, t.end.line);
      assert PollRun(handler, recv, send, s, line) == After(t.end.fired, [f], more);
      PollConsumesFrames(handler, recv, send, t.end.status, t.end.line);
      if more.result == Ok(true) {
        ConsumedCons(line.inbox, f, t.end.line.inbox, more.frames, more.line.inbox);
      }
    }
  }

  lemma ConsumedNone(inbox: seq<Byte>)
    ensures inbox == Stream([]) + inbox
  {
    assert [] + inbox == inbox;
  }

  /** A frame in front of frames that were consumed. */
  lemma ConsumedCons(inbox: seq<Byte>, f: Frame, rest: seq<Byte>, frames: seq<Frame>, tail: seq<Byte>)
    requires inbox == FrameBytes(f) + rest && rest == Stream(frames) + tail
    ensures inbox == Stream([f] + frames) + tail
  {
    StreamCons(f, frames);
    assert FrameBytes(f) + (Stream(frames) + tail) == FrameBytes(f) + Stream(frames) + tail;
  }

  /** The frames a poll reads are, in order, the first frames the inbox splits into. */
  lemma {:induction false} PollSplitsInbox(handler: Handler, recv: seq<Io>, send: seq<Io>, s: Status, line: Line)
    ensures PollRun(handler, recv, send, s, line).frames <= SplitFrames(line.inbox)
    decreases |recv| - line.recvAt
  {
    var e := PollRun(handler, recv, send, s, line);
    var t := Round(handler, recv, send, s, line);
    RoundReads(handler, recv, send, s, line);
    if t.end.frames != [] {
      var f := t.end.frames[0];
      var rest := SplitFrames(t.end.line.inbox);
      if t.more {
        var more := PollRun(handler, recv, send, t.end.status, t.end.line);
        PollSplitsInbox(handler, recv, send, t.end.status, t.end.line);
        assert e.frames == [f] + more.frames;
        PrefixCons([f], more.frames, rest);
      } else {
        assert e.frames == [f] + [];
        PrefixCons([f], [], rest);
      }
    }
  }

  /** A poll of an inbox that carries the well-formed frames `fs`, then `rest`, reads the first of those frames, in the order they were sent. */
  lemma PollReadsStream(handler: Handler, recv: seq<Io>, send: seq<Io>, s: Status, line: Line, fs: seq<Frame>, rest: seq<Byte>)
    requires forall i :: 0 <= i < |fs| ==> WellFormed(fs[i])
    requires line.inbox == Stream(fs) + rest
    ensures PollRun(handler, recv, send, s, line).frames <= fs + SplitFrames(rest)
    ensures rest == [] ==> PollRun(handler, recv, send, s, line).frames <= fs
  {
    PollSplitsInbox(handler, recv, send, s, line);
    SplitStream(fs, rest);
    assert SplitFrames([]) == [];
    assert fs + [] == fs;
  }

  /** Frames streamed one after the other. */
  lemma StreamCons(f: Frame, fs: seq<Frame>)
    ensures Stream([f] + fs) == FrameBytes(f) + Stream(fs)
  {
    assert ([f] + fs)[0] == f && ([f] + fs)[1..] == fs;
  }

  /** A prefix stays a prefix behind the same front. */
  lemma PrefixCons<T>(x: seq<T>, a: seq<T>, b: seq<T>)
    requires a <= b
    ensures x + a <= x + b
  {
    assert (x + b)[..|x + a|] == x + a;
  }

  /** The number of `OnReady` notifications in a log. */
  function ReadyCount(events: seq<Event>): nat {
    if events == [] then 0 else (if events[0].OnReady? then 1 else 0) + ReadyCount(events[1..])
  }

  lemma {:induction false} ReadyCountAppend(a: seq<Event>, b: seq<Event>)
    ensures ReadyCount(a + b) == ReadyCount(a) + ReadyCount(b)
    decreases |a|
  {
    if a == [] {
      assert a + b == b;
    } else {
      assert (a + b)[0] == a[0] && (a + b)[1..] == a[1..] + b;
      ReadyCountAppend(a[1..], b);
    }
  }

  /** Handling one frame fires `OnReady` at most once, only on a connection that was not ready, and then makes it ready. */
  lemma HandleReadiesOnce(parse: seq<Byte> -> Option<Json>, s: Status, f: Frame, script: seq<Io>, at: nat)
    requires WellFormed(f)
    ensures var r := Handle(parse, s, f, script, at).reaction;
      && ReadyCount(r.fired) <= (if s.ready then 0 else 1)
      && (s.ready ==> r.status.ready && r.status.user == s.user)
      && (ReadyCount(r.fired) == 1 ==> r.status.ready)
  {
    var r := Handle(parse, s, f, script, at).reaction;
    assert r.fired == [] || (r.fired == [OnReady(r.status.user)] && !s.ready && r.status.ready) || (|r.fired| == 1 && r.fired[0].OnError?);
    assert r.status.ready == s.ready || (!s.ready && r.status.ready);
    assert s.ready ==> r.status.user == s.user;
  }

  /**
   * Within one poll, `OnReady` fires at most once, and only on a connection
   * that was not ready; a connection that was ready stays ready with the same user.
   */
  lemma {:induction false} PollReadiesOnce(handler: Handler, parse: seq<Byte> -> Option<Json>, recv: seq<Io>, send: seq<Io>, s: Status, line: Line)
    requires Handles(handler, parse)
    ensures var e := PollRun(handler, recv, send, s, line);
      && ReadyCount(e.fired) <= (if s.ready then 0 else 1)
      && (s.ready ==> e.status.ready && e.status.user == s.user)
      && (ReadyCount(e.fired) == 1 ==> e.status.ready)
    decreases |recv| - line.recvAt
  {
    var rd := FrameReading(recv, line.recvAt, line.inbox);
    if rd.result.Ok? && rd.result.value.Whole? {
      var f := rd.result.value.frame;
      HandleReadiesOnce(parse, s, f, send, line.sendAt);
      var h := handler(s, f, send, line.sendAt);
      var s' := h.reaction.status;
      if h.reaction.result == Ok(true) {
        var handled := Line(rd.at, line.inbox[rd.taken..], h.at, line.sent + h.wrote);
        PollReadiesOnce(handler, parse, recv, send, s', handled);
        ReadyCountAppend(h.reaction.fired, PollRun(handler, recv, send, s', handled).fired);
      }
    }
  }

  class IPCConnection {
    const applicationId: string
    const host: Endianness
    /** `json.dump()`: `None` where the library throws (text that is not UTF-8). */
    const dump: Json -> Option<seq<Byte>>
    /** `json::parse`: `None` where the library throws. */
    const parse: seq<Byte> -> Option<Json>
    /** `HandlePacket` as a function value: what `Poll` folds over the frames it reads. */
    ghost const handler: Handler

    var isOpen: bool
    var isReady: bool
    var user: User
    var socket: Socket?
    var errorCode: Int32
    var errorString: string
    var packetCounter: UInt64
    ghost var events: seq<Event>

    ghost predicate Valid()
      reads this
    {
      && (isReady ==> isOpen) && (isOpen ==> socket != null)
      && Handles(handler, parse)
    }

    function Snapshot(): Status
      reads this
    {
      Status(isReady, user, errorCode, errorString)
    }

    constructor(applicationId: string, host: Endianness, dump: Json -> Option<seq<Byte>>, parse: seq<Byte> -> Option<Json>)
      ensures Valid() && !isOpen && !isReady && events == []
      ensures this.applicationId == applicationId && this.host == host && this.dump == dump && this.parse == parse
    {
      this.applicationId := applicationId;
      this.host := host;
      this.dump := dump;
      this.parse := parse;
      handler := (s: Status, f: Frame, send: seq<Io>, at: nat) => if WellFormed(f) then Handle(parse, s, f, send, at) else Handled(Reaction(Ok(true), s, []), at, []);
      isOpen := false;
      isReady := false;
      user := NoUser;
      socket := null;
      errorCode := 0;
      errorString := "";
      packetCounter := 0;
      events := [];
    }

    /** The socket's cursors, inbox and output, as `PollRun` follows them. */
    ghost function Link(): Line
      reads this, socket
      requires socket != null
    {
      Line(socket.recvAt, socket.inbox, socket.sendAt, socket.sent)
    }

    /** Writes the header, then the first `size` bytes of `payload`, each until done or the socket gives up. */
    method SendPacket(opcode: Word, payload: seq<Byte>, size: Word) returns (r: Result<bool>)
      requires socket != null && size <= |payload|
      modifies socket`sendAt, socket`sent
      ensures var o := PacketSending(socket.sendScript, old(socket.sendAt), size);
        && r == o.result && socket.sendAt == o.at
        && socket.sent == old(socket.sent) + FrameBytes(Frame(PacketHeader(opcode, size), payload[..size]))[..o.written]
      ensures Transmitted(old(socket.sent), socket.sent, Frame(PacketHeader(opcode, size), payload[..size]), r)
    {
      var header := HostHeaderBytes(host, PacketHeader(opcode, size));
      SendIsLittleEndian(host, PacketHeader(opcode, size));
      var body := payload[..size];
      assert FrameBytes(Frame(PacketHeader(opcode, size), body)) == header + body;
      ghost var before := socket.sent;
      ghost var h := Sending(socket.sendScript, socket.sendAt, HeaderSize);
      r := SendAll(header);
      if r != Ok(true) {
        HeaderCut(before, header, body, h.written, socket.sent);
        return;
      }
      ghost var p := Sending(socket.sendScript, socket.sendAt, size);
      r := SendAll(body);
      BodyCut(before, header, body, p.written, socket.sent);
    }

    /**
     * One send loop of `SendPacket`: sends until all of `data` is written,
     * each call taking what the previous ones left over, and stops at the
     * first call that fails or throws.
     */
    method SendAll(data: seq<Byte>) returns (r: Result<bool>)
      requires socket != null
      modifies socket`sendAt, socket`sent
      ensures var o := Sending(socket.sendScript, old(socket.sendAt), |data|);
        r == o.result && socket.sendAt == o.at && socket.sent == old(socket.sent) + data[..o.written]
    {
      var link := socket;
      ghost var goal := Sending(link.sendScript, link.sendAt, |data|);
      ghost var rest := goal;
      var total: nat := 0;
      while total < |data|
        invariant total <= |data|
        invariant link.sent == old(link.sent) + data[..total]
        invariant rest == Sending(link.sendScript, link.sendAt, |data| - total)
        invariant goal.result == rest.result && goal.at == rest.at && goal.written == rest.written + total
        decreases |link.sendScript| - link.sendAt
      {
        var chunk := data[total..];
        assert |chunk| == |data| - total;
        ghost var c := Call(link.sendScript, link.sendAt, |chunk|, |chunk|);
        ghost var next := Sending(link.sendScript, c.at, |chunk| - c.count);
        assert rest == if c.result == Ok(true) then Sent(next, c.count) else SendRun(c.result, c.at, 0);
        var ok, n := link.Send(chunk);
        if ok != Ok(true) {
          return ok;
        }
        Extend(data, total, n, |data|);
        total, rest := total + n, next;
      }
      assert data[..total] == data;
      r := Ok(true);
    }

    /** Dumps `json` and sends the text as one packet; a dump that throws sends nothing. */
    method SendJsonPacket(opcode: Word, json: Json) returns (r: Result<bool>)
      requires socket != null
      modifies socket`sendAt, socket`sent
      ensures var o := JsonSending(socket.sendScript, old(socket.sendAt), dump(json));
        && r == o.result && socket.sendAt == o.at
        && (dump(json).Some? ==> socket.sent == old(socket.sent) + FrameBytes(JsonFrame(opcode, dump(json).value))[..o.written])
      ensures JsonTransmitted(old(socket.sent), socket.sent, opcode, dump(json), r)
    {
      var text := dump(json);
      if text.None? {
        return Err(TypeError);
      }
      r := SendPacket(opcode, text.value, TruncateToWord(|text.value|));
    }

    method SendHandshake() returns (r: Result<bool>)
      requires socket != null
      modifies socket`sendAt, socket`sent
      ensures var o := JsonSending(socket.sendScript, old(socket.sendAt), dump(HandshakeJson(applicationId)));
        && r == o.result && socket.sendAt == o.at
        && (dump(HandshakeJson(applicationId)).Some? ==>
              socket.sent == old(socket.sent) + FrameBytes(JsonFrame(OpHandshake, dump(HandshakeJson(applicationId)).value))[..o.written])
      ensures JsonTransmitted(old(socket.sent), socket.sent, OpHandshake, dump(HandshakeJson(applicationId)), r)
    {
      r := SendJsonPacket(OpHandshake, HandshakeJson(applicationId));
    }

    /**
     * Reads one 8-byte header. Nothing available at first means "would
     * block"; once some bytes have arrived, it keeps reading until all eight
     * are in. The rest of the header is read into a buffer of its own.
     */
    method ReceivePacketHeader() returns (r: Result<HeaderOutcome>)
      requires socket != null
      modifies socket`recvAt, socket`inbox
      ensures var o := HeaderReading(socket.recvScript, old(socket.recvAt), old(socket.inbox));
        r == o.result && socket.recvAt == o.at && socket.inbox == old(socket.inbox)[o.taken..]
    {
      ghost var c := Call(socket.recvScript, socket.recvAt, |socket.inbox|, HeaderSize);
      ghost var o := HeaderReading(socket.recvScript, socket.recvAt, socket.inbox);
      var buffer := new Byte[HeaderSize];
      var ok, first := socket.Receive(buffer, 0, HeaderSize);
      if ok != Ok(true) {
        assert o == HeaderRun(Interrupted(ok), c.at, 0);
        return Interrupted(ok);
      }
      if first == 0 {
        return Ok(NoData);
      }
      ghost var rest := socket.inbox;
      var tail := new Byte[HeaderSize - first];
      ok := ReceivePacketPayload(tail, HeaderSize - first);
      if ok != Ok(true) {
        return Interrupted(ok);
      }
      var bytes := buffer[..first] + tail[..];
      assert bytes == old(socket.inbox)[..HeaderSize] by {
        assert old(socket.inbox)[..HeaderSize] == old(socket.inbox)[..first] + rest[..HeaderSize - first];
      }
      ReceiveIsLittleEndian(host, bytes);
      r := Ok(Got(HostHeader(host, bytes)));
    }

    /** Reads exactly `size` payload bytes into `buffer`, waiting through empty reads. */
    method ReceivePacketPayload(buffer: array<Byte>, size: Word) returns (r: Result<bool>)
      requires socket != null && size <= buffer.Length
      modifies socket`recvAt, socket`inbox, buffer
      ensures var o := Receiving(socket.recvScript, old(socket.recvAt), |old(socket.inbox)|, size);
        && r == o.result && socket.recvAt == o.at
        && socket.inbox == old(socket.inbox)[o.taken..] && buffer[..o.taken] == old(socket.inbox)[..o.taken]
    {
      var link := socket;
      ghost var script, inbox0 := link.recvScript, link.inbox;
      ghost var at, inbox := link.recvAt, link.inbox;
      ghost var goal := Receiving(script, at, |inbox|, size);
      ghost var rest := goal;
      var total: nat := 0;
      while total < size
        invariant link.recvAt == at && link.inbox == inbox
        invariant total <= size && total <= |inbox0|
        invariant buffer[..total] == inbox0[..total]
        invariant inbox == inbox0[total..]
        invariant rest == Receiving(script, at, |inbox|, size - total)
        invariant goal.result == rest.result && goal.at == rest.at && goal.taken == rest.taken + total
        decreases |script| - at
      {
        ghost var c := Call(script, at, |inbox|, size - total);
        ghost var next := Receiving(script, c.at, |inbox| - c.count, size - total - c.count);
        assert rest == if c.result == Ok(true) then Took(next, c.count) else RecvRun(c.result, c.at, 0);
        ghost var before := buffer[..];
        var ok, n := link.Receive(buffer, total, size - total);
        assert ok == c.result && n == c.count && link.recvAt == c.at;
        if ok != Ok(true) {
          return ok;
        }
        Filled(before, buffer[..], total, n, inbox0);
        total, rest := total + n, next;
        at, inbox := link.recvAt, link.inbox;
      }
      r := Ok(true);
    }

    // ---- inbound packets ----

    method HandleFrame(payload: seq<Byte>) returns (r: Result<bool>)
      requires isOpen
      modifies this`isReady, this`user, this`errorCode, this`errorString, this`events
      ensures var reaction := OnFrame(old(Snapshot()), parse(payload));
        r == reaction.result && Snapshot() == reaction.status && events == old(events) + reaction.fired
    {
      var message := parse(payload);
      if message.None? {
        return Err(ParseError);
      }
      match Classify(message.value) {
        case ReadyEvent(data) =>
          if !isReady && data.Some? {
            var decoded := DecodeUser(data.value);
            if decoded.Err? {
              return Err(decoded.error);
            }
            user := decoded.value;
            isReady := true;
            events := events + [OnReady(user)];
          }
        case ErrorEvent(data) =>
          if data.Some? {
            r := ReadError(data.value);
            if r.Err? {
              return;
            }
            events := events + [OnError(errorCode, errorString)];
          }
        case OtherMessage =>
      }
      r := Ok(true);
    }

    method HandleClose(payload: seq<Byte>) returns (r: Result<bool>)
      modifies this`errorCode, this`errorString
      ensures var reaction := OnClose(old(Snapshot()), parse(payload));
        r == reaction.result && Snapshot() == reaction.status
    {
      var message := parse(payload);
      if message.None? {
        return Err(ParseError);
      }
      r := ReadError(message.value);
      if r.Err? {
        return;
      }
      r := Ok(false);
    }

    /** Stores `code`, then `message`, of `j`; the first read that throws stops it. */
    method ReadError(j: Json) returns (r: Result<bool>)
      modifies this`errorCode, this`errorString
      ensures var reaction := TakeError(old(Snapshot()), j, Ok(true), false);
        r == reaction.result && Snapshot() == reaction.status
    {
      var code := ErrorCode(j);
      if code.Err? {
        return Err(code.error);
      }
      errorCode := code.value;
      var message := ErrorMessage(j);
      if message.Err? {
        return Err(message.error);
      }
      errorString := message.value;
      r := Ok(true);
    }

    /** Answers a Ping with a Frame packet that carries a Pong header and the ping's bytes. */
    method HandlePing(length: Word, payload: seq<Byte>) returns (r: Result<bool>)
      requires socket != null && |payload| == length
      modifies socket`sendAt, socket`sent
      ensures var pong := PongFrame(payload);
        var o := PacketSending(socket.sendScript, old(socket.sendAt), pong.header.length);
        r == o.result && socket.sendAt == o.at && socket.sent == old(socket.sent) + FrameBytes(pong)[..o.written]
    {
      var reply := HostHeaderBytes(host, PacketHeader(OpPong, length)) + payload;
      SendIsLittleEndian(host, PacketHeader(OpPong, length));
      r := SendPacket(OpFrame, reply, TruncateToWord(|reply|));
    }

    /**
     * Dispatches one packet on its opcode. Handshake, Pong and any opcode
     * outside the five known ones are accepted and ignored.
     */
    method HandlePacket(header: PacketHeader, payload: seq<Byte>) returns (r: Result<bool>)
      requires Valid() && isOpen && |payload| == header.length
      modifies this`isReady, this`user, this`errorCode, this`errorString, this`events
      modifies socket`sendAt, socket`sent
      ensures Valid() && isOpen
      ensures var h := Handle(parse, old(Snapshot()), Frame(header, payload), socket.sendScript, old(socket.sendAt));
        && r == h.reaction.result && Snapshot() == h.reaction.status && events == old(events) + h.reaction.fired
        && socket.sendAt == h.at && socket.sent == old(socket.sent) + h.wrote
    {
      if header.opcode == OpFrame {
        r := HandleFrame(payload);
      } else if header.opcode == OpClose {
        r := HandleClose(payload);
      } else if header.opcode == OpPing {
        r := HandlePing(header.length, payload);
      } else {
        r := Ok(true);
      }
    }

    // ---- opening and closing ----

    method CloseConnection()
      requires socket != null
      modifies socket`connected
      ensures !socket.connected
    {
      socket.Close();
    }

    /** Closes an open connection and reports the last error to the disconnect handlers; does nothing otherwise. */
    method Close()
      requires Valid()
      modifies this`isOpen, this`isReady, this`events, {socket} - {null}`connected
      ensures Valid() && !isOpen && !isReady
      ensures old(isOpen) ==> !socket.connected && events == old(events) + [OnDisconnect(errorCode, errorString)]
      ensures !old(isOpen) ==> events == old(events)
      ensures !old(isOpen) && socket != null ==> socket.connected == old(socket.connected)
    {
      if isOpen {
        CloseConnection();
        isReady := false;
        isOpen := false;
        events := events + [OnDisconnect(errorCode, errorString)];
      }
    }

    /** Tries the endpoints in order and keeps the first socket that opens. */
    method OpenConnection(env: Environment) returns (r: Result<bool>)
      modifies this`socket
      ensures var paths := Endpoints(env);
        var k := FirstAnswering(env, paths);
        && (k == |paths| ==> r == Ok(false))
        && (k < |paths| ==>
              && socket != null && fresh(socket)
              && socket.path == paths[k] && socket.behaviour == PeerAt(env, paths[k]).open
              && socket.sendScript == PeerAt(env, paths[k]).sendScript
              && socket.recvScript == PeerAt(env, paths[k]).recvScript
              && socket.inbox == PeerAt(env, paths[k]).inbox
              && socket.sendAt == 0 && socket.recvAt == 0 && socket.sent == []
              && (socket.behaviour == Accepts ==> r == Ok(true) && socket.connected)
              && (socket.behaviour == Raises ==> r == Err(TransportError)))
    {
      var generator := new PathGenerator();
      generator.Init(env.platform, env.variables);
      ghost var paths := Endpoints(env);
      var path := "";
      while true
        invariant generator.Valid() && generator.isInitialized
        invariant generator.path == Prefix(env.platform, env.variables)
        invariant forall j :: 0 <= j < generator.id ==> PeerAt(env, paths[j]).open == Refuses
        decreases EndpointCount - generator.id
      {
        ghost var id := generator.id;
        var more;
        more, path := generator.Next(path);
        if !more {
          assert FirstAnswering(env, paths) == |paths|;
          return Ok(false);
        }
        socket := new Socket(path, PeerAt(env, path));
        var answer := socket.Open();
        if answer.Err? {
          assert FirstAnswering(env, paths) == id;
          return Err(TransportError);
        }
        if answer.value {
          assert FirstAnswering(env, paths) == id;
          return Ok(true);
        }
      }
    }

    /**
     * Connects to the first answering endpoint and sends the handshake.
     * `connectFails` says whether an `OnConnect` handler throws.
     */
    method Open(env: Environment, connectFails: bool) returns (r: Result<bool>)
      requires Valid() && !isOpen
      modifies this`errorCode, this`errorString, this`packetCounter, this`socket, this`isOpen, this`isReady, this`events
      ensures Valid() && !isReady
      ensures errorCode == 0 && errorString == "" && packetCounter == 0 && user == old(user)
      ensures var paths := Endpoints(env);
        var k := FirstAnswering(env, paths);
        && (k == |paths| ==> r == Ok(false) && !isOpen && events == old(events))
        && (k < |paths| && PeerAt(env, paths[k]).open == Raises ==>
              r == Err(TransportError) && !isOpen && events == old(events))
        && (k < |paths| && PeerAt(env, paths[k]).open == Accepts ==>
              && socket != null && fresh(socket) && socket.path == paths[k] && socket.behaviour == Accepts
              && socket.sendScript == PeerAt(env, paths[k]).sendScript
              && socket.recvScript == PeerAt(env, paths[k]).recvScript
              && socket.inbox == PeerAt(env, paths[k]).inbox && socket.recvAt == 0
              && HandshakeOutcome(connectFails, old(events), r))
    {
      errorCode := 0;
      errorString := "";
      packetCounter := 0;
      ghost var paths := Endpoints(env);
      ghost var k := FirstAnswering(env, paths);
      var found := OpenConnection(env);
      if found.Err? {
        return Err(found.error);
      }
      if !found.value {
        return Ok(false);
      }
      ghost var peer := PeerAt(env, paths[k]);
      assert socket.path == paths[k] && socket.behaviour == Accepts;
      assert socket.recvScript == peer.recvScript && socket.inbox == peer.inbox && socket.recvAt == 0;
      r := Establish(connectFails);
    }

    /**
     * What follows a successful connect, given the socket's send script. A
     * dump that throws escapes `Open` as it is, leaving the socket connected
     * and nothing sent; a handshake the socket does not take whole closes the
     * socket and reports `HandshakeFailed`; otherwise the handshake is on the
     * wire and the connection is open, unless the connect handler threw and
     * it was closed again.
     */
    ghost predicate HandshakeOutcome(connectFails: bool, before: seq<Event>, r: Result<bool>)
      reads this, socket
      requires socket != null
    {
      var handshake := dump(HandshakeJson(applicationId));
      var o := JsonSending(socket.sendScript, 0, handshake);
      && (r == Ok(true) || r == Err(TypeError) || r == Err(HandshakeFailed) || r == Err(HandlerError))
      && (r == Err(TypeError) <==> handshake.None?)
      && (r == Err(HandshakeFailed) <==> handshake.Some? && o.result != Ok(true))
      && socket.sendAt == o.at
      && (r == Err(TypeError) ==> !isOpen && socket.connected && socket.sent == [] && events == before)
      && (r == Err(HandshakeFailed) ==>
            && !isOpen && !socket.connected && events == before
            && socket.sent < FrameBytes(JsonFrame(OpHandshake, handshake.value)))
      && (r == Ok(true) || r == Err(HandlerError) ==> socket.sent == FrameBytes(JsonFrame(OpHandshake, handshake.value)))
      && (r == Ok(true) ==> isOpen && socket.connected && events == before + [OnConnect] && !connectFails)
      && (r == Err(HandlerError) ==>
            connectFails && !isOpen && !socket.connected && events == before + [OnConnect, OnDisconnect(errorCode, errorString)])
    }

    /** The second half of `Open`, on a freshly connected socket. */
    method Establish(connectFails: bool) returns (r: Result<bool>)
      requires Valid() && !isOpen && socket != null && socket.connected && socket.sent == [] && socket.sendAt == 0
      modifies this`isOpen, this`isReady, this`events, socket`sendAt, socket`sent, socket`connected
      ensures Valid() && socket == old(socket) && !isReady
      ensures HandshakeOutcome(connectFails, old(events), r)
    {
      var sent := SendHandshake();
      if sent == Err(TypeError) {
        return sent;
      }
      if sent != Ok(true) {
        CloseConnection();
        return Err(HandshakeFailed);
      }
      isOpen := true;
      events := events + [OnConnect];
      if connectFails {
        Close();
        return Err(HandlerError);
      }
      r := Ok(true);
    }

    // ---- the public operations on an open connection ----

    /** The reading half of one round of `Poll`: a header, then the payload it announces. */
    method ReceiveFrame() returns (r: Result<FrameOutcome>)
      requires socket != null
      modifies socket`recvAt, socket`inbox
      ensures var o := FrameReading(socket.recvScript, old(socket.recvAt), old(socket.inbox));
        r == o.result && socket.recvAt == o.at && socket.inbox == old(socket.inbox)[o.taken..]
    {
      var outcome := ReceivePacketHeader();
      if outcome.Err? {
        return Err(outcome.error);
      }
      match outcome.value {
        case NoData =>
          return Ok(Idle);
        case ConnectionClosed =>
          return Ok(Hangup);
        case Got(header) =>
          ghost var rest := socket.inbox;
          assert rest == old(socket.inbox)[HeaderSize..];
          var buffer := new Byte[header.length];
          var ok := ReceivePacketPayload(buffer, header.length);
          if ok.Err? {
            return Err(ok.error);
          }
          if !ok.value {
            return Ok(Hangup);
          }
          assert buffer[..] == buffer[..header.length];
          assert rest[..header.length] == old(socket.inbox)[HeaderSize..HeaderSize + header.length];
          assert rest[header.length..] == old(socket.inbox)[HeaderSize + header.length..];
          r := Ok(Whole(Frame(header, buffer[..])));
      }
    }

    /**
     * Reads and handles packets until none is waiting: the result, the
     * status, the events and the socket are those `PollRun` gives for the
     * scripts and the state on entry, and a poll that reports `Ok(false)` has
     * closed the connection, firing `OnDisconnect` last.
     */
    method Poll() returns (r: Result<bool>)
      requires Valid() && isOpen
      modifies this`isOpen, this`isReady, this`user, this`errorCode, this`errorString, this`events
      modifies socket`recvAt, socket`inbox, socket`sendAt, socket`sent, socket`connected
      ensures Valid() && socket == old(socket)
      ensures var e := PollRun(handler, socket.recvScript, socket.sendScript, old(Snapshot()), old(Link()));
        && r == e.result && Link() == e.line
        && (r != Ok(false) ==> isOpen && Snapshot() == e.status && events == old(events) + e.fired)
        && (r == Ok(false) ==>
              && !isOpen && !socket.connected && Snapshot() == e.status.(ready := false)
              && events == old(events) + e.fired + [OnDisconnect(e.status.code, e.status.message)])
    {
      ghost var recv, send := socket.recvScript, socket.sendScript;
      ghost var s, line := Snapshot(), Link();
      // The poll as a whole, seen from before the first round, with the log before it in front.
      ghost var goal := After(events, [], PollRun(handler, recv, send, s, line));
      ghost var frames: seq<Frame> := [];
      while true
        invariant Valid() && isOpen && socket == old(socket)
        invariant Snapshot() == s && Link() == line
        invariant goal == After(events, frames, PollRun(handler, recv, send, s, line))
        decreases |recv| - line.recvAt
      {
        ghost var t := Round(handler, recv, send, s, line);
        ghost var log := events;
        var more;
        more, r := PollRound();
        if !more {
          return;
        }
        AfterAfter(log, frames, t.end.fired, t.end.frames, PollRun(handler, recv, send, t.end.status, t.end.line));
        frames := frames + t.end.frames;
        s, line := t.end.status, t.end.line;
      }
    }

    /**
     * One pass of `Poll`'s loop: read a packet and handle it. A hang-up, or
     * a handler reporting the connection closed, closes the connection.
     */
    method PollRound() returns (more: bool, r: Result<bool>)
      requires Valid() && isOpen
      modifies this`isOpen, this`isReady, this`user, this`errorCode, this`errorString, this`events
      modifies socket`recvAt, socket`inbox, socket`sendAt, socket`sent, socket`connected
      ensures Valid() && socket == old(socket)
      ensures var t := Round(handler, socket.recvScript, socket.sendScript, old(Snapshot()), old(Link()));
        && more == t.more && r == t.end.result && Link() == t.end.line
        && (r != Ok(false) ==> isOpen && Snapshot() == t.end.status && events == old(events) + t.end.fired)
        && (r == Ok(false) ==>
              && !isOpen && !socket.connected && Snapshot() == t.end.status.(ready := false)
              && events == old(events) + t.end.fired + [OnDisconnect(t.end.status.code, t.end.status.message)])
    {
      var next := ReceiveFrame();
      if next.Err? {
        return false, Err(next.error);
      }
      if next.value.Idle? {
        return false, Ok(true);
      }
      if next.value.Hangup? {
        Close();
        return false, Ok(false);
      }
      var frame := next.value.frame;
      r := HandlePacket(frame.header, frame.payload);
      if r.Err? {
        return false, r;
      }
      if !r.value {
        Close();
        return false, r;
      }
      more := true;
    }

    /**
     * Sends the presence as a SET_ACTIVITY command whose nonce is the packet
     * counter, which advances whether or not the send succeeds.
     */
    method UpdatePresence(presence: RichPresence, pid: nat) returns (r: Result<bool>)
      requires Valid() && isOpen
      modifies this`packetCounter, socket`sendAt, socket`sent
      ensures packetCounter == (old(packetCounter) + 1) % 0x1_0000_0000_0000_0000
      ensures var o := JsonSending(socket.sendScript, old(socket.sendAt), dump(PresenceJson(old(packetCounter), pid, presence)));
        r == o.result && socket.sendAt == o.at
      ensures JsonTransmitted(old(socket.sent), socket.sent, OpFrame, dump(PresenceJson(old(packetCounter), pid, presence)), r)
    {
      var json := BuildPresence(packetCounter, pid, presence);
      packetCounter := (packetCounter + 1) % 0x1_0000_0000_0000_0000;
      r := SendJsonPacket(OpFrame, json);
    }
  }

  /** A read of `n` more bytes at `total` extends what the buffer holds, and what is left of the inbox. */
  lemma Filled(before: seq<Byte>, after: seq<Byte>, total: nat, n: nat, inbox: seq<Byte>)
    requires |before| == |after| && total + n <= |after| && total + n <= |inbox|
    requires before[..total] == inbox[..total]
    requires after[..total] == before[..total]
    requires after[total..total + n] == inbox[total..][..n]
    ensures after[..total + n] == inbox[..total + n]
    ensures inbox[total..][n..] == inbox[total + n..]
  {
    assert after[..total + n] == after[..total] + after[total..total + n];
    assert inbox[..total + n] == inbox[..total] + inbox[total..][..n];
  }

  /** A send that stops inside the header leaves a proper prefix of the packet sent. */
  lemma HeaderCut(before: seq<Byte>, header: seq<Byte>, body: seq<Byte>, n: nat, after: seq<Byte>)
    requires n < |header| && after == before + header[..n]
    ensures after == before + (header + body)[..n]
    ensures before <= after < before + (header + body)
  {
    assert (header + body)[..n] == header[..n];
  }

  /** After the whole header and `n` bytes of the body, the packet's first `|header| + n` bytes are sent. */
  lemma BodyCut(before: seq<Byte>, header: seq<Byte>, body: seq<Byte>, n: nat, after: seq<Byte>)
    requires n <= |body| && after == before + header + body[..n]
    ensures after == before + (header + body)[..|header| + n]
    ensures n < |body| ==> before <= after < before + (header + body)
    ensures n == |body| ==> after == before + (header + body)
  {
    assert (header + body)[..|header| + n] == header + body[..n];
  }

  /** Taking `n` more elements from `s[i..end]` extends the prefix `s[..i]` to `s[..i + n]`. */
  lemma Extend<T>(s: seq<T>, i: nat, n: nat, end: nat)
    requires i + n <= end <= |s|
    ensures s[..i] + s[i..end][..n] == s[..i + n]
    ensures s[..i] + s[i..][..n] == s[..i + n]
  {
    assert s[i..end][..n] == s[i..i + n];
    assert s[i..][..n] == s[i..i + n];
  }
}
