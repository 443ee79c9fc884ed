/**
 * The local socket the connection talks through, with the operating system
 * replaced by a script: how the peer answers `Open`, and one scripted reply
 * for every `Send` and every `Receive` call. Each script is fixed when the
 * socket is made; a cursor says how many of its replies have been used.
 */
module Transport {
  import opened Base
  import opened Wire

  /** One reply to a send or receive call. */
  datatype Io =
    | Done(count: nat)   // the call succeeds and moves at most `count` bytes (0: would block)
    | Closed             // the call returns false: the peer closed the connection
    | Raised             // the call throws

  /** How the endpoint answers `Open`: it connects, there is nothing listening, or it throws. */
  datatype OpenBehaviour = Accepts | Refuses | Raises

  /** Everything the peer at one path will do, and the bytes it will deliver. */
  datatype Peer = Peer(open: OpenBehaviour, sendScript: seq<Io>, recvScript: seq<Io>, inbox: seq<Byte>)

  /** A path nobody listens on. */
  const Nobody: Peer := Peer(Refuses, [], [], [])

  function Min(a: nat, b: nat): nat {
    if a < b then a else b
  }

  class Socket {
    const path: string
    const behaviour: OpenBehaviour
    var connected: bool
    /** The replies to `Send` calls, in order, and how many of them have been used. */
    const sendScript: seq<Io>
    var sendAt: nat
    /** The replies to `Receive` calls, in order, and how many of them have been used. */
    const recvScript: seq<Io>
    var recvAt: nat
    /** The bytes the peer has sent and this side has not read yet. */
    var inbox: seq<Byte>
    /** Everything this side has written, in order. */
    ghost var sent: seq<Byte>

    constructor(path: string, peer: Peer)
      ensures this.path == path && behaviour == peer.open && !connected
      ensures sendScript == peer.sendScript && recvScript == peer.recvScript && inbox == peer.inbox
      ensures sendAt == 0 && recvAt == 0 && sent == []
    {
      this.path := path;
      behaviour := peer.open;
      connected := false;
      sendScript := peer.sendScript;
      sendAt := 0;
      recvScript := peer.recvScript;
      recvAt := 0;
      inbox := peer.inbox;
      sent := [];
    }

    method Open() returns (r: Result<bool>)
      modifies this`connected
      ensures r == match behaviour
                   case Accepts => Ok(true)
                   case Refuses => Ok(false)
                   case Raises => Err(TransportError)
      ensures connected <==> behaviour == Accepts
    {
      match behaviour {
        case Accepts => connected := true; r := Ok(true);
        case Refuses => connected := false; r := Ok(false);
        case Raises => connected := false; r := Err(TransportError);
      }
    }

    method Close()
      modifies this`connected
      ensures !connected
    {
      connected := false;
    }

    /**
     * Writes a prefix of `data`: `Ok(true)` with the count written, `Ok(false)`
     * once the peer has closed, `Err` when the call throws. Every call uses
     * the next reply of the send script; with none left the peer is closed.
     */
    method Send(data: seq<Byte>) returns (r: Result<bool>, n: nat)
      modifies this`sendAt, this`sent
      ensures var c := Call(sendScript, old(sendAt), |data|, |data|);
        r == c.result && n == c.count && sendAt == c.at
      ensures sent == old(sent) + data[..n]
    {
      if sendAt >= |sendScript| {
        return Ok(false), 0;
      }
      var step := sendScript[sendAt];
      sendAt := sendAt + 1;
      match step {
        case Done(count) =>
          n := Min(count, |data|);
          sent := sent + data[..n];
          r := Ok(true);
        case Closed =>
          r, n := Ok(false), 0;
        case Raised =>
          r, n := Err(TransportError), 0;
      }
    }

    /**
     * Reads at most `size` bytes of the inbox into `buf[offset..]`, with the
     * same three outcomes as `Send`; `Ok(true)` with `n == 0` means that
     * nothing was available (the call would block).
     */
    method Receive(buf: array<Byte>, offset: nat, size: nat) returns (r: Result<bool>, n: nat)
      requires offset + size <= buf.Length
      modifies this`recvAt, this`inbox, buf
      ensures var c := Call(recvScript, old(recvAt), |old(inbox)|, size);
        r == c.result && n == c.count && recvAt == c.at
      ensures inbox == old(inbox)[n..] && buf[offset..offset + n] == old(inbox)[..n]
      ensures buf[..offset] == old(buf[..offset]) && buf[offset + n..] == old(buf[offset + n..])
    {
      if recvAt >= |recvScript| {
        return Ok(false), 0;
      }
      var step := recvScript[recvAt];
      recvAt := recvAt + 1;
      match step {
        case Done(count) =>
          n := Min(Min(count, size), |inbox|);
          forall i | 0 <= i < n {
            buf[offset + i] := inbox[i];
          }
          inbox := inbox[n..];
          r := Ok(true);
        case Closed =>
          r, n := Ok(false), 0;
        case Raised =>
          r, n := Err(TransportError), 0;
      }
    }
  }

  // ---- what a loop of calls does, as a function of the script and its cursor ----

  /** The first reply from `at` on that is not `Done`, as the result a loop reports on meeting it; with none left, the peer is closed. */
  function Stop(script: seq<Io>, at: nat): (r: Result<bool>)
    ensures r != Ok(true)
    decreases |script| - at
  {
    if at >= |script| then Ok(false)
    else
      match script[at]
      case Done(_) => Stop(script, at + 1)
      case Closed => Ok(false)
      case Raised => Err(TransportError)
  }

  /** How many bytes the `Done` replies from `at` on let through in total, up to the first other reply. */
  function Capacity(script: seq<Io>, at: nat): nat
    decreases |script| - at
  {
    if at >= |script| || !script[at].Done? then 0 else script[at].count + Capacity(script, at + 1)
  }

  /** What one call does: its result, how many bytes it moves, and where it leaves the cursor. */
  datatype Reply = Reply(result: Result<bool>, count: nat, at: nat)

  /**
   * One send or receive call at cursor `at` that offers or asks for `n`
   * bytes when `available` are there to move: a `Done` reply moves what it
   * allows of them, the other replies move nothing, and a used-up script
   * answers as a closed peer without moving the cursor.
   */
  function Call(script: seq<Io>, at: nat, available: nat, n: nat): (c: Reply)
    ensures c.count <= n && c.count <= available
    ensures c.result != Ok(true) ==> c.count == 0
    ensures c.result.Err? ==> c.result == Err(TransportError)
    ensures c.at == if at < |script| then at + 1 else at
    ensures c.result == Ok(true) <==> at < |script| && script[at].Done?
  {
    if at >= |script| then Reply(Ok(false), 0, at)
    else
      match script[at]
      case Done(count) => Reply(Ok(true), Min(Min(count, n), available), at + 1)
      case Closed => Reply(Ok(false), 0, at + 1)
      case Raised => Reply(Err(TransportError), 0, at + 1)
  }

  /** The end of a send loop: its result, the cursor it leaves, and how many bytes went out. */
  datatype SendRun = SendRun(result: Result<bool>, at: nat, written: nat)

  /**
   * A loop that sends `n` bytes, each call offering all that is still unsent,
   * until everything is out or a call fails. Every call uses one reply, so
   * the cursor only moves forward.
   */
  function Sending(script: seq<Io>, at: nat, n: nat): (o: SendRun)
    ensures o.written <= n && (o.result == Ok(true) <==> o.written == n)
    ensures o.result.Err? ==> o.result == Err(TransportError)
    ensures at <= o.at && (o.at == at || o.at <= |script|)
    decreases |script| - at
  {
    if n == 0 then SendRun(Ok(true), at, 0)
    else
      var c := Call(script, at, n, n);
      if c.result == Ok(true) then Sent(Sending(script, c.at, n - c.count), c.count)
      else SendRun(c.result, c.at, 0)
  }

  /** The rest `o` of a send loop, seen from before the call that sent `k` bytes. */
  function Sent(o: SendRun, k: nat): SendRun {
    o.(written := o.written + k)
  }

  /** The end of a receive loop: its result, the cursor it leaves, and how many bytes it took off the front of the inbox. */
  datatype RecvRun = RecvRun(result: Result<bool>, at: nat, taken: nat)

  /**
   * A loop that receives `n` bytes from an inbox holding `available`, each
   * call asking for all that is still missing, until everything is in or a
   * call fails. Empty reads go round again.
   */
  function Receiving(script: seq<Io>, at: nat, available: nat, n: nat): (o: RecvRun)
    ensures o.taken <= n && o.taken <= available && (o.result == Ok(true) <==> o.taken == n)
    ensures at <= o.at && (o.at == at || o.at <= |script|)
    decreases |script| - at
  {
    if n == 0 then RecvRun(Ok(true), at, 0)
    else
      var c := Call(script, at, available, n);
      if c.result == Ok(true) then Took(Receiving(script, c.at, available - c.count, n - c.count), c.count)
      else RecvRun(c.result, c.at, 0)
  }

  /** The rest `o` of a receive loop, seen from before the call that took `k` bytes. */
  function Took(o: RecvRun, k: nat): RecvRun {
    o.(taken := o.taken + k)
  }

  /** A send loop succeeds exactly when the `Done` replies at the cursor let all `n` bytes through; otherwise it reports the first other reply. */
  lemma {:induction false} SendingOutcome(script: seq<Io>, at: nat, n: nat)
    ensures Sending(script, at, n).result == if n <= Capacity(script, at) then Ok(true) else Stop(script, at)
    decreases |script| - at
  {
    if n > 0 && at < |script| && script[at].Done? {
      SendingOutcome(script, at + 1, n - Call(script, at, n, n).count);
    }
  }

  /**
   * A receive loop succeeds exactly when the inbox holds `n` bytes and the
   * `Done` replies at the cursor let them through; otherwise it reports the first other reply.
   */
  lemma {:induction false} ReceivingOutcome(script: seq<Io>, at: nat, available: nat, n: nat)
    ensures Receiving(script, at, available, n).result == if n <= available && n <= Capacity(script, at) then Ok(true) else Stop(script, at)
    decreases |script| - at
  {
    if n > 0 && at < |script| && script[at].Done? {
      var c := Call(script, at, available, n);
      ReceivingOutcome(script, c.at, available - c.count, n - c.count);
    }
  }
}
