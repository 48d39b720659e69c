/** The transport of lib/libtcpipc: the frame format written by `tcpipc_send`, the
    demultiplexing loop of the receive thread that feeds the receive queue, and the
    descriptor cleanup done by `tcpipc_terminate` on the error paths of `tcpipc_init`.
    A frame is `[msg_id][msg_len][msg_len payload bytes]`. Socket calls are inputs:
    the count `write` reports, the outcome of each `read`, the status of each setup step. */
module TcpIpc {
  import opened CTypes
  import opened CbFifo

  const BUFFER_MAX_SIZE: nat := 1024

  // ---------------------------------------------------------------------------
  // Encoding

  /** The packet holds the `msg_len` bytes that the encoder copies from `msg_data`. */
  predicate Sendable(p: MsgPacket)
  {
    p.msgLen == 0 || (p.msgData.Some? && |p.msgData.value| >= p.msgLen)
  }

  /** The `msg_len` bytes the encoder copies from `msg_data`. */
  function Payload(p: MsgPacket): (data: seq<uint8>)
    requires Sendable(p)
    ensures |data| == p.msgLen
  {
    if p.msgLen == 0 then [] else p.msgData.value[..p.msgLen]
  }

  /** The frame `tcpipc_send` builds in its buffer: id, length, then the payload. */
  function EncodeFrame(p: MsgPacket): (frame: seq<uint8>)
    requires Sendable(p)
    ensures |frame| == p.msgLen + 2
  {
    [p.msgId, p.msgLen] + Payload(p)
  }

  /** `tcpipc_send`: the bytes handed to `write`, and the return code for the count
      `written` that `write` reports: 0 only for a complete write, -1 for an error,
      for 0 bytes and for a short write. */
  function Send(p: MsgPacket, written: int): (res: (seq<uint8>, int))
    requires Sendable(p)
    ensures res.0 == EncodeFrame(p)
    ensures res.1 == 0 <==> written == |res.0|
    ensures res.1 == 0 || res.1 == -1
  {
    var frame := EncodeFrame(p);
    if written < 0 then (frame, -1)
    else if written == 0 then (frame, -1)
    else if written == p.msgLen + 2 then (frame, 0)
    else (frame, -1)
  }

  /** The packet a receiver rebuilds from an encoded frame: exactly `msg_len` payload
      bytes, and a NULL payload for a zero length. */
  function Normalize(p: MsgPacket): MsgPacket
    requires Sendable(p)
  {
    MsgPacket(p.msgId, p.msgLen, if p.msgLen == 0 then None else Some(Payload(p)))
  }

  function EncodeAll(ps: seq<MsgPacket>): seq<uint8>
    requires forall k :: 0 <= k < |ps| ==> Sendable(ps[k])
  {
    if ps == [] then [] else EncodeFrame(ps[0]) + EncodeAll(ps[1..])
  }

  function NormalizeAll(ps: seq<MsgPacket>): (rs: seq<MsgPacket>)
    requires forall k :: 0 <= k < |ps| ==> Sendable(ps[k])
    ensures |rs| == |ps|
  {
    if ps == [] then [] else [Normalize(ps[0])] + NormalizeAll(ps[1..])
  }

  // ---------------------------------------------------------------------------
  // Decoding, as the inner loop of `tcpipc_recv_thread` does it

  /** The frame starting at index `i` of one read buffer, with the index after it; `None`
      when fewer than two header bytes remain or the declared payload does not fit. */
  function DecodeFrame(buf: seq<uint8>, i: nat): (r: Option<(MsgPacket, nat)>)
    ensures r.None? <==> i + 2 > |buf| || i + 2 + buf[i + 1] > |buf|
    ensures r.Some? ==> r.value.1 == i + 2 + r.value.0.msgLen <= |buf|
    ensures r.Some? ==> r.value.0.msgId == buf[i] && r.value.0.msgLen == buf[i + 1]
    ensures r.Some? ==> (r.value.0.msgData.None? <==> r.value.0.msgLen == 0)
    ensures r.Some? && r.value.0.msgData.Some? ==> r.value.0.msgData.value == buf[i + 2..r.value.1]
  {
    if i + 2 <= |buf| && i + 2 + buf[i + 1] <= |buf| then
      var len := buf[i + 1];
      Some((MsgPacket(buf[i], len, if len == 0 then None else Some(buf[i + 2..i + 2 + len])), i + 2 + len))
    else
      None
  }

  /** Every frame decoded from index `i` of one read buffer, in stream order. */
  function DecodeAll(buf: seq<uint8>, i: nat): (fs: seq<MsgPacket>)
    ensures i <= |buf| ==> 2 * |fs| <= |buf| - i
    ensures forall k :: 0 <= k < |fs| ==> Sendable(fs[k]) && (fs[k].msgData.None? <==> fs[k].msgLen == 0)
    decreases |buf| - i
  {
    match DecodeFrame(buf, i)
    case None => []
    case Some((p, j)) => [p] + DecodeAll(buf, j)
  }

  /** The index where decoding of one read buffer stops; bytes from here on are dropped. */
  function Consumed(buf: seq<uint8>, i: nat): (c: nat)
    ensures i <= c && (i <= |buf| ==> c <= |buf|)
    ensures DecodeFrame(buf, c).None?
    ensures c == i <==> DecodeFrame(buf, i).None?
    decreases |buf| - i
  {
    match DecodeFrame(buf, i)
    case None => i
    case Some((p, j)) => Consumed(buf, j)
  }

  /** A frame decodes the same wherever it sits in the buffer. */
  lemma DecodeFrameShift(pre: seq<uint8>, t: seq<uint8>)
    ensures DecodeFrame(pre + t, |pre|) ==
      match DecodeFrame(t, 0)
      case None => None
      case Some((p, j)) => Some((p, |pre| + j))
  {
    var buf := pre + t;
    var i := |pre|;
    if 2 <= |t| {
      assert buf[i] == t[0] && buf[i + 1] == t[1];
      if 2 + t[1] <= |t| {
        assert buf[i + 2..i + 2 + t[1]] == t[2..2 + t[1]];
      }
    }
  }

  /** Decoding an encoded frame gives back the packet and consumes exactly `msg_len + 2`
      bytes, whatever precedes or follows it in the buffer. */
  lemma DecodeEncode(pre: seq<uint8>, p: MsgPacket, post: seq<uint8>)
    requires Sendable(p)
    ensures DecodeFrame(pre + EncodeFrame(p) + post, |pre|) == Some((Normalize(p), |pre| + p.msgLen + 2))
  {
    var t := EncodeFrame(p) + post;
    assert pre + EncodeFrame(p) + post == pre + t;
    DecodeFrameShift(pre, t);
    assert t[0] == p.msgId && t[1] == p.msgLen;
    assert t[2..2 + p.msgLen] == Payload(p);
  }

  /** Frames packed back to back in one read are all decoded, in order, and the whole
      buffer is consumed. */
  lemma {:induction false} DecodeEncodeAll(pre: seq<uint8>, ps: seq<MsgPacket>, tail: seq<uint8>)
    requires forall k :: 0 <= k < |ps| ==> Sendable(ps[k])
    requires DecodeFrame(tail, 0).None?
    ensures DecodeAll(pre + EncodeAll(ps) + tail, |pre|) == NormalizeAll(ps)
    ensures Consumed(pre + EncodeAll(ps) + tail, |pre|) == |pre + EncodeAll(ps)|
    decreases |ps|
  {
    if ps == [] {
      assert pre + EncodeAll(ps) + tail == pre + tail;
      DecodeFrameShift(pre, tail);
    } else {
      var p := ps[0];
      var pre' := pre + EncodeFrame(p);
      assert pre + EncodeAll(ps) + tail == pre + EncodeFrame(p) + (EncodeAll(ps[1..]) + tail);
      assert pre + EncodeAll(ps) + tail == pre' + EncodeAll(ps[1..]) + tail;
      DecodeEncode(pre, p, EncodeAll(ps[1..]) + tail);
      DecodeEncodeAll(pre', ps[1..], tail);
    }
  }

  /** A tail that holds no complete frame (under two bytes, or a declared length past the
      end of the read) is not decoded: it is dropped, since the next read restarts at 0. */
  lemma TailIsDropped(ps: seq<MsgPacket>, tail: seq<uint8>)
    requires forall k :: 0 <= k < |ps| ==> Sendable(ps[k])
    requires DecodeFrame(tail, 0).None?
    ensures DecodeAll(EncodeAll(ps) + tail, 0) == NormalizeAll(ps)
    ensures Consumed(EncodeAll(ps) + tail, 0) == |EncodeAll(ps)|
  {
    var buf := EncodeAll(ps) + tail;
    assert [] + EncodeAll(ps) + tail == buf;
    DecodeEncodeAll([], ps, tail);
  }

  // ---------------------------------------------------------------------------
  // Feeding the receive queue

  function Min(a: int, b: int): int { if a <= b then a else b }

  /** Enqueues `frames` one after the other and ignores each return code, as the receive
      thread does. */
  function Offer(q: seq<MsgPacket>, frames: seq<MsgPacket>): (r: seq<MsgPacket>)
    requires |q| <= RECV_MESSAGE_CB_LEN
    ensures |r| <= RECV_MESSAGE_CB_LEN
    decreases |frames|
  {
    if frames == [] then q else Offer(Put(q, frames[0]).0, frames[1..])
  }

  /** Offering keeps what was queued and appends the frames in order until the queue is
      full; the rest are dropped. */
  lemma {:induction false} OfferKeepsOrder(q: seq<MsgPacket>, frames: seq<MsgPacket>)
    requires |q| <= RECV_MESSAGE_CB_LEN
    ensures Offer(q, frames) == q + frames[..Min(RECV_MESSAGE_CB_LEN - |q|, |frames|)]
    decreases |frames|
  {
    if frames != [] {
      var q1 := Put(q, frames[0]).0;
      OfferKeepsOrder(q1, frames[1..]);
      if |q| < RECV_MESSAGE_CB_LEN {
        assert q1 == q + [frames[0]];
        assert frames[..Min(RECV_MESSAGE_CB_LEN - |q|, |frames|)]
            == [frames[0]] + frames[1..][..Min(RECV_MESSAGE_CB_LEN - |q1|, |frames[1..]|)];
      } else {
        assert frames[..0] == [] == frames[1..][..0];
      }
    }
  }

  /** Offering two batches in turn is offering them as one. */
  lemma {:induction false} OfferConcat(q: seq<MsgPacket>, a: seq<MsgPacket>, b: seq<MsgPacket>)
    requires |q| <= RECV_MESSAGE_CB_LEN
    ensures Offer(Offer(q, a), b) == Offer(q, a + b)
    decreases |a|
  {
    if a != [] {
      assert (a + b)[0] == a[0] && (a + b)[1..] == a[1..] + b;
      OfferConcat(Put(q, a[0]).0, a[1..], b);
    } else {
      assert a + b == b;
    }
  }

  /** The inner loop of `tcpipc_recv_thread` over one read of `buffer`: peel frames off
      the front and enqueue each one, ignoring a full queue, until no complete frame is
      left; the rest of the buffer is dropped. */
  method DemuxRead(buffer: seq<uint8>, fifo: RecvMsgCb)
    requires fifo.Valid()
    modifies fifo, fifo.msgArray
    ensures fifo.Valid() && fifo.msgArray == old(fifo.msgArray)
    ensures fifo.Contents == Offer(old(fifo.Contents), DecodeAll(buffer, 0))
  {
    var bufferIndex: nat := 0;
    while bufferIndex < |buffer|
      invariant fifo.Valid() && fifo.msgArray == old(fifo.msgArray)
      invariant Offer(fifo.Contents, DecodeAll(buffer, bufferIndex)) == Offer(old(fifo.Contents), DecodeAll(buffer, 0))
      decreases |buffer| - bufferIndex
    {
      var start := bufferIndex;
      var msgId: uint8, msgLen: uint8, msgData: Option<seq<uint8>> := 0, 0, None;
      if bufferIndex + 2 <= |buffer| {
        msgId := buffer[bufferIndex + 0];
        msgLen := buffer[bufferIndex + 1];
        bufferIndex := bufferIndex + 2;
      } else {
        break;
      }
      if bufferIndex + msgLen <= |buffer| {
        if msgLen != 0 {
          msgData := Some(buffer[bufferIndex..bufferIndex + msgLen]);
        }
        bufferIndex := bufferIndex + msgLen;
        assert DecodeFrame(buffer, start) == Some((MsgPacket(msgId, msgLen, msgData), bufferIndex));
        var _ := fifo.Enqueue(MsgPacket(msgId, msgLen, msgData));
      } else {
        break;
      }
    }
  }

  // ---------------------------------------------------------------------------
  // The receive thread and the descriptors

  /** What one `read` on the socket returned: an error, end of stream, or some bytes. */
  datatype ReadResult = ReadError | PeerClosed | Received(bytes: seq<uint8>)

  /** The count `read` returns for that outcome. */
  function ReadCount(r: ReadResult): (n: int)
    ensures n < 0 <==> r.ReadError?
    ensures n > 0 <==> r.Received? && |r.bytes| > 0
  {
    match r
    case ReadError => -1
    case PeerClosed => 0
    case Received(bytes) => |bytes|
  }

  /** The frames the receive thread decodes from a series of successful reads, read by read. */
  function FramesOf(outcomes: seq<ReadResult>): seq<MsgPacket>
  {
    if outcomes == [] then []
    else
      var last := outcomes[|outcomes| - 1];
      FramesOf(outcomes[..|outcomes| - 1]) + (if last.Received? then DecodeAll(last.bytes, 0) else [])
  }

  /** One more successful read appends the frames decoded from it. */
  lemma FramesOfOneMore(outcomes: seq<ReadResult>, n: nat)
    requires n < |outcomes| && outcomes[n].Received?
    ensures FramesOf(outcomes[..n + 1]) == FramesOf(outcomes[..n]) + DecodeAll(outcomes[n].bytes, 0)
  {
    assert outcomes[..n + 1][..n] == outcomes[..n];
  }

  /** Index of the first read that ended the loop (a count of 0 or less), or the number
      of reads if none did. */
  function FirstStop(outcomes: seq<ReadResult>): (k: nat)
    ensures k <= |outcomes|
    ensures forall j :: 0 <= j < k ==> ReadCount(outcomes[j]) > 0
    ensures k < |outcomes| ==> ReadCount(outcomes[k]) <= 0
  {
    if outcomes == [] || ReadCount(outcomes[0]) <= 0 then 0 else 1 + FirstStop(outcomes[1..])
  }

  /** A frame whose bytes arrive in two reads is never delivered: each read is decoded on
      its own, so the header read first announces more bytes than that read holds, and the
      payload read second is taken for a header. */
  lemma SplitFrameIsDropped()
    ensures EncodeFrame(MsgPacket(1, 2, Some([7, 9]))) == [1, 2, 7, 9]
    ensures FramesOf([Received([1, 2, 7]), Received([9])]) == []
    ensures FramesOf([Received([1, 2, 7, 9])]) == [MsgPacket(1, 2, Some([7, 9]))]
  {
    var split := [Received([1, 2, 7]), Received([9])];
    assert split[..1] == [Received([1, 2, 7])];
    assert [Received([1, 2, 7])][..0] == [];
    assert DecodeAll([1, 2, 7], 0) == [];
    assert DecodeAll([9], 0) == [];
    var whole := [Received([1, 2, 7, 9])];
    assert whole[..0] == [];
    assert [1, 2, 7, 9][2..4] == [7, 9];
    assert DecodeFrame([1, 2, 7, 9], 0) == Some((MsgPacket(1, 2, Some([7, 9])), 4));
    assert DecodeAll([1, 2, 7, 9], 4) == [];
  }

  datatype Role = RoleNone | RoleServer | RoleClient

  class Transport {
    /** `server_info.fd` */
    var serverFd: int
    /** `client_info.fd`, the connected socket */
    var clientFd: int
    /** `client_info.exit_status`, the flag that stops the receive thread */
    var exitStatus: int
    /** the static receive queue */
    const fifo: RecvMsgCb

    ghost predicate Valid()
      reads this, fifo, fifo.msgArray
    {
      fifo.Valid()
    }

    /** The zero-initialised globals. */
    constructor ()
      ensures Valid() && fresh(fifo) && fresh(fifo.msgArray)
      ensures serverFd == 0 && clientFd == 0 && exitStatus == 0 && fifo.Contents == []
    {
      serverFd, clientFd, exitStatus := 0, 0, 0;
      fifo := new RecvMsgCb();
    }

    /** `tcpipc_recv_thread`: while `exit_status` is 0, read and feed each read's frames to
        the queue; a read reporting an error or the peer closing ends the loop and sets
        `exit_status` to 1. Running out of `outcomes` models a thread still blocked in `read`. */
    method RecvThread(outcomes: seq<ReadResult>) returns (readsDone: nat)
      requires Valid()
      modifies this`exitStatus, fifo, fifo.msgArray
      ensures Valid() && fifo.msgArray == old(fifo.msgArray)
      ensures old(exitStatus) != 0 ==> readsDone == 0 && fifo.Contents == old(fifo.Contents) && exitStatus == 1
      ensures old(exitStatus) == 0 ==>
        var k := FirstStop(outcomes);
        fifo.Contents == Offer(old(fifo.Contents), FramesOf(outcomes[..k])) &&
        readsDone == (if k < |outcomes| then k + 1 else k) &&
        exitStatus == (if k < |outcomes| then 1 else 0)
    {
      readsDone := 0;
      var stopped := false;
      while exitStatus == 0 && readsDone < |outcomes| && !stopped
        invariant Valid() && fifo.msgArray == old(fifo.msgArray)
        invariant readsDone <= |outcomes|
        invariant exitStatus == old(exitStatus)
        invariant old(exitStatus) != 0 ==> readsDone == 0 && fifo.Contents == old(fifo.Contents)
        invariant !stopped ==> readsDone <= FirstStop(outcomes)
        invariant stopped ==> readsDone == FirstStop(outcomes) + 1
        invariant fifo.Contents == Offer(old(fifo.Contents), FramesOf(outcomes[..readsDone - (if stopped then 1 else 0)]))
        decreases |outcomes| - readsDone
      {
        var r := outcomes[readsDone];
        readsDone := readsDone + 1;
        var bufferLen := ReadCount(r);
        if bufferLen < 0 {
          stopped := true;
        } else if bufferLen == 0 {
          stopped := true;
        } else {
          DemuxRead(r.bytes, fifo);
          FramesOfOneMore(outcomes, readsDone - 1);
          OfferConcat(old(fifo.Contents), FramesOf(outcomes[..readsDone - 1]), DecodeAll(r.bytes, 0));
        }
      }
      if stopped || exitStatus != 0 {
        exitStatus := 1;
      }
    }

    /** `tcpipc_terminate`: close and zero each non-zero descriptor, server first, and
        return 0; a second call finds both zero and closes nothing. */
    method Terminate() returns (r: int, closed: seq<int>)
      modifies this`serverFd, this`clientFd
      ensures r == 0 && serverFd == 0 && clientFd == 0
      ensures closed == Closes(old(serverFd), old(clientFd))
      ensures old(serverFd) == 0 && old(clientFd) == 0 ==> closed == []
    {
      closed := [];
      if serverFd != 0 {
        closed := closed + [serverFd];
        serverFd := 0;
      }
      if clientFd != 0 {
        closed := closed + [clientFd];
        clientFd := 0;
      }
      r := 0;
    }

    /** `tcpipc_init`. The socket calls are inputs: `setupFd` is the descriptor the setup
        step leaves in place (the listening socket for the server, the socket for the
        client; -1 after a failed option or bind call), `connectFd` what `accept` stores
        for the server, and the statuses are 0 for success. For a server or client, the
        setup first zeroes both descriptors and the `exit_status` flag. A failed step
        returns what `tcpipc_terminate` returns, 0, after it closed the descriptors the
        setup left; otherwise, and also for an unknown role, the queue is initialised,
        the receive thread is started and 0 is returned. */
    method Init(role: Role, setupFd: int, setupStatus: int, connectFd: int, connectStatus: int)
      returns (r: int, started: bool, closed: seq<int>)
      requires Valid()
      modifies this`serverFd, this`clientFd, this`exitStatus, fifo, fifo.msgArray
      ensures Valid() && fifo.msgArray == old(fifo.msgArray)
      ensures (r, started) == InitResult(role, setupStatus, connectStatus)
      ensures role == RoleNone ==>
        serverFd == old(serverFd) && clientFd == old(clientFd) && exitStatus == old(exitStatus)
      ensures role != RoleNone ==> exitStatus == 0
      ensures role != RoleNone && started ==>
        (serverFd, clientFd) == SetupFds(role, setupFd, setupStatus, connectFd)
      ensures started ==> fifo.Contents == [] && closed == []
      ensures !started ==>
        serverFd == 0 && clientFd == 0 && fifo.Contents == old(fifo.Contents) &&
        closed == InitClosed(role, setupFd, setupStatus, connectFd)
    {
      closed := [];
      if role == RoleServer {
        serverFd, clientFd, exitStatus := 0, 0, 0;
        serverFd := setupFd;
        if setupStatus != 0 {
          r, closed := Terminate();
          return r, false, closed;
        }
        clientFd := connectFd;
        if connectStatus != 0 {
          r, closed := Terminate();
          return r, false, closed;
        }
      } else if role == RoleClient {
        serverFd, clientFd, exitStatus := 0, 0, 0;
        clientFd := setupFd;
        if setupStatus != 0 {
          r, closed := Terminate();
          return r, false, closed;
        }
        if connectStatus != 0 {
          r, closed := Terminate();
          return r, false, closed;
        }
      }
      fifo.Init();
      started := true;
      r := 0;
    }
  }

  /** The server and client descriptors a server or client setup leaves in place: the
      server's listening socket and, once setup succeeded, what `accept` returned; the
      client's own socket, which a failed `connect` closes without clearing. */
  function SetupFds(role: Role, setupFd: int, setupStatus: int, connectFd: int): (fds: (int, int))
    requires role != RoleNone
    ensures role == RoleServer ==> fds.0 == setupFd && (fds.1 == connectFd <==> setupStatus == 0 || connectFd == 0)
    ensures role == RoleClient ==> fds == (0, setupFd)
  {
    if role == RoleServer then (setupFd, if setupStatus != 0 then 0 else connectFd)
    else (0, setupFd)
  }

  /** The descriptors `tcpipc_terminate` closes: each non-zero one, server first. */
  function Closes(serverFd: int, clientFd: int): (closed: seq<int>)
    ensures 0 !in closed
    ensures serverFd in closed <==> serverFd != 0
    ensures clientFd in closed <==> clientFd != 0
    ensures serverFd != 0 ==> |closed| > 0 && closed[0] == serverFd
    ensures clientFd != 0 ==> |closed| > 0 && closed[|closed| - 1] == clientFd
  {
    (if serverFd != 0 then [serverFd] else []) + (if clientFd != 0 then [clientFd] else [])
  }

  /** What a failed `tcpipc_init` closes: the non-zero descriptors its setup step left. */
  function InitClosed(role: Role, setupFd: int, setupStatus: int, connectFd: int): (closed: seq<int>)
    ensures forall k :: 0 <= k < |closed| ==> closed[k] == setupFd || closed[k] == connectFd
  {
    if role == RoleNone then []
    else
      var fds := SetupFds(role, setupFd, setupStatus, connectFd);
      Closes(fds.0, fds.1)
  }

  /** A server whose listening socket 3 was set up but whose `accept` failed with -1
      closes both 3 and -1, whatever descriptors were in place before the call. */
  lemma FailedAcceptClosesBoth()
    ensures InitClosed(RoleServer, 3, 0, -1) == [3, -1]
    ensures InitClosed(RoleClient, 5, -1, 0) == [5]
  {
  }

  /** Return code of `tcpipc_init` and whether it started the receive side. */
  function InitResult(role: Role, setupStatus: int, connectStatus: int): (res: (int, bool))
    ensures res.1 <==> role == RoleNone || (setupStatus == 0 && connectStatus == 0)
  {
    if role != RoleNone && (setupStatus != 0 || connectStatus != 0) then (0, false) else (0, true)
  }

  /** The return code does not tell a failed setup from a successful one. */
  lemma InitHidesFailure(role: Role, setupStatus: int, connectStatus: int)
    requires role != RoleNone && setupStatus != 0
    ensures InitResult(role, setupStatus, connectStatus) == (0, false)
    ensures InitResult(role, 0, 0) == (0, true)
  {
  }

  /** `tcpipc_init` with an error return on a failed setup or connect step. */
  function InitResultChecked(role: Role, setupStatus: int, connectStatus: int): (res: (int, bool))
    ensures res.1 <==> role == RoleNone || (setupStatus == 0 && connectStatus == 0)
    ensures res.0 == 0 <==> res.1
    ensures res.0 == 0 || res.0 == -1
  {
    if role != RoleNone && (setupStatus != 0 || connectStatus != 0) then (-1, false) else (0, true)
  }
}
