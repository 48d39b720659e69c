/** The earlier single-frame codec of the ping-pong application: `ipc_write` sends one
    frame in the same layout as the transport, and `ipc_read` takes at most one frame per
    read, always from offset 0 of a 1024-byte stack buffer that persists across reads. */
module IpcCommon {
  import opened CTypes
  import opened CbFifo
  import opened TcpIpc

  /** `MESSAGE_MIN_LEN`: reads shorter than this end the reader. */
  const MESSAGE_MIN_LEN: nat := 3

  /** `ipc_write`: the bytes handed to `write` and the return code for the count
      `written` that `write` reports. */
  function IpcWrite(msg: MsgPacket, written: int): (res: (seq<uint8>, int))
    requires Sendable(msg)
    ensures res == Send(msg, written)
  {
    var buffer := [msg.msgId, msg.msgLen] + (if msg.msgLen == 0 then [] else msg.msgData.value[..msg.msgLen]);
    var status :=
      if written < 0 then -1
      else if written == 0 then -1
      else if written == msg.msgLen + 2 then 0
      else -1;
    (buffer, status)
  }

  /** The stack buffer after `read` stored `bytes` at its start (at most as many as fit);
      the rest keeps what earlier reads, or the uninitialised stack, left there. */
  function Overlay(buffer: seq<uint8>, bytes: seq<uint8>): (b: seq<uint8>)
    ensures |b| == |buffer|
    ensures |bytes| <= |buffer| ==> b[..|bytes|] == bytes && b[|bytes|..] == buffer[|bytes|..]
  {
    if |bytes| <= |buffer| then bytes + buffer[|bytes|..] else bytes[..|buffer|]
  }

  /** The bytes one read stores. */
  function Stored(r: ReadResult): seq<uint8>
  {
    if r.Received? then r.bytes else []
  }

  /** The packet `ipc_read` builds from its buffer: id from byte 0, length from byte 1 and
      `msg_len` bytes copied from byte 2, with no check against the count read; `None` for
      a zero length, which is not enqueued. */
  function FrameAt(buffer: seq<uint8>): (r: Option<MsgPacket>)
    requires |buffer| == BUFFER_MAX_SIZE
    ensures r.None? <==> buffer[1] == 0
    ensures r.Some? ==> r.value.msgId == buffer[0] && r.value.msgLen == buffer[1] &&
                        r.value.msgData == Some(buffer[2..2 + buffer[1]])
  {
    if buffer[1] == 0 then None
    else Some(MsgPacket(buffer[0], buffer[1], Some(buffer[2..2 + buffer[1]])))
  }

  /** Every read returns at most the `BUFFER_MAX_SIZE` bytes it asked for. */
  predicate ReadsFit(outcomes: seq<ReadResult>)
  {
    forall k :: 0 <= k < |outcomes| ==> ReadCount(outcomes[k]) <= BUFFER_MAX_SIZE
  }

  /** The buffer after the reads in `outcomes`, starting from the contents `stack`. */
  function BufferAfter(stack: seq<uint8>, outcomes: seq<ReadResult>): (b: seq<uint8>)
    requires |stack| == BUFFER_MAX_SIZE
    ensures |b| == BUFFER_MAX_SIZE
    ensures outcomes != [] && |Stored(outcomes[|outcomes| - 1])| <= BUFFER_MAX_SIZE ==>
      b[..|Stored(outcomes[|outcomes| - 1])|] == Stored(outcomes[|outcomes| - 1])
  {
    if outcomes == [] then stack
    else Overlay(BufferAfter(stack, outcomes[..|outcomes| - 1]), Stored(outcomes[|outcomes| - 1]))
  }

  /** The packets `ipc_read` enqueues for a series of reads of at least `MESSAGE_MIN_LEN`
      bytes each, starting from the buffer contents `stack`: after each read, the frame
      at the start of the buffer, unless its length is 0. */
  function Offered(stack: seq<uint8>, outcomes: seq<ReadResult>): (ps: seq<MsgPacket>)
    requires |stack| == BUFFER_MAX_SIZE
    ensures |ps| <= |outcomes|
  {
    if outcomes == [] then []
    else
      var b := BufferAfter(stack, outcomes);
      Offered(stack, outcomes[..|outcomes| - 1]) + (if FrameAt(b).Some? then [FrameAt(b).value] else [])
  }

  /** Index of the first read that ends the reader: an error, end of stream, or fewer
      than `MESSAGE_MIN_LEN` bytes. */
  function ShortRead(outcomes: seq<ReadResult>): (k: nat)
    ensures k <= |outcomes|
    ensures forall j :: 0 <= j < k ==> ReadCount(outcomes[j]) >= MESSAGE_MIN_LEN
    ensures k < |outcomes| ==> ReadCount(outcomes[k]) < MESSAGE_MIN_LEN
  {
    if outcomes == [] || ReadCount(outcomes[0]) < MESSAGE_MIN_LEN then 0 else 1 + ShortRead(outcomes[1..])
  }

  /** `ipc_read`: while `exit_status` is 0, read into the buffer and enqueue the frame at
      its start; an error, end of stream or a short read ends the loop, after which
      `exit_status` is 1. `stack` is what the buffer holds before the first read; the
      packets handed to `recv_msg_enqueue` are returned in order. Running out of
      `outcomes` models a reader still blocked in `read`. */
  method IpcRead(stack: seq<uint8>, outcomes: seq<ReadResult>, exitStatus0: int)
    returns (offered: seq<MsgPacket>, readsDone: nat, exitStatus: int)
    requires |stack| == BUFFER_MAX_SIZE && ReadsFit(outcomes)
    ensures exitStatus0 != 0 ==> offered == [] && readsDone == 0 && exitStatus == 1
    ensures exitStatus0 == 0 ==>
      var k := ShortRead(outcomes);
      offered == Offered(stack, outcomes[..k]) &&
      readsDone == (if k < |outcomes| then k + 1 else k) &&
      exitStatus == (if k < |outcomes| then 1 else 0)
  {
    var buffer := new uint8[BUFFER_MAX_SIZE];
    ReadInto(buffer, stack);
    ghost var k := ShortRead(outcomes);
    offered, readsDone, exitStatus := [], 0, exitStatus0;
    var stopped := false;
    assert buffer[..] == stack by {
      assert buffer[..][..|stack|] == stack;
    }
    assert outcomes[..0] == [];
    while exitStatus == 0 && readsDone < |outcomes| && !stopped
      invariant readsDone <= |outcomes| && exitStatus == exitStatus0
      invariant exitStatus0 != 0 ==> readsDone == 0 && offered == []
      invariant !stopped ==> readsDone <= k
      invariant stopped ==> readsDone == k + 1
      invariant !stopped ==> buffer[..] == BufferAfter(stack, outcomes[..readsDone])
      invariant !stopped ==> offered == Offered(stack, outcomes[..readsDone])
      invariant stopped ==> offered == Offered(stack, outcomes[..k])
      decreases |outcomes| - readsDone
    {
      var frame;
      frame, stopped := ReadOnce(buffer, outcomes[readsDone]);
      readsDone := readsDone + 1;
      if !stopped {
        assert outcomes[..readsDone][..readsDone - 1] == outcomes[..readsDone - 1];
        if frame.Some? {
          offered := offered + [frame.value];
        }
      }
    }
    if stopped || exitStatus != 0 {
      exitStatus := 1;
    }
  }

  /** One pass of the `ipc_read` loop body on the read outcome `r`: `stop` when the loop
      ends (an error, end of stream or fewer than `MESSAGE_MIN_LEN` bytes), else the frame
      at the start of the buffer, `None` for an empty one. */
  method ReadOnce(buffer: array<uint8>, r: ReadResult) returns (frame: Option<MsgPacket>, stop: bool)
    requires buffer.Length == BUFFER_MAX_SIZE && ReadCount(r) <= BUFFER_MAX_SIZE
    modifies buffer
    ensures stop <==> ReadCount(r) < MESSAGE_MIN_LEN
    ensures !stop ==> buffer[..] == Overlay(old(buffer[..]), Stored(r)) && frame == FrameAt(buffer[..])
  {
    var bufferLen := ReadCount(r);
    frame := None;
    if bufferLen < 0 {
      return frame, true;
    }
    if bufferLen == 0 {
      return frame, true;
    }
    ReadInto(buffer, r.bytes);
    if bufferLen >= MESSAGE_MIN_LEN {
      var msgId := buffer[0];
      var msgLen := buffer[1];
      if msgLen == 0 {
        // an empty frame is reported and not enqueued
      } else {
        frame := Some(MsgPacket(msgId, msgLen, Some(buffer[2..2 + msgLen])));
      }
      stop := false;
    } else {
      stop := true;
    }
  }

  /** What `read` does to the buffer: the bytes received are stored at its start. */
  method ReadInto(buffer: array<uint8>, bytes: seq<uint8>)
    requires |bytes| <= buffer.Length
    modifies buffer
    ensures buffer[..] == Overlay(old(buffer[..]), bytes)
  {
    forall i | 0 <= i < |bytes| {
      buffer[i] := bytes[i];
    }
  }

  /** When a read holds a complete non-empty frame at offset 0, `ipc_read` delivers the
      packet the transport decoder reads from that offset, whatever the buffer held before
      and whatever follows the frame in the read. */
  lemma FirstFrameAgrees(stack: seq<uint8>, bytes: seq<uint8>)
    requires |stack| == BUFFER_MAX_SIZE && MESSAGE_MIN_LEN <= |bytes| <= BUFFER_MAX_SIZE
    requires DecodeFrame(bytes, 0).Some? && bytes[1] != 0
    ensures FrameAt(Overlay(stack, bytes)) == Some(DecodeFrame(bytes, 0).value.0)
  {
    var b := Overlay(stack, bytes);
    assert b[..|bytes|] == bytes;
    assert b[0] == bytes[0] && b[1] == bytes[1];
    assert b[2..2 + bytes[1]] == bytes[2..2 + bytes[1]];
  }

  /** A read shorter than its frame's declared length still delivers a packet, and its
      payload carries bytes left by an earlier read: after reading `[1, 2, 7, 9]` and then
      `[1, 2, 5]`, the second packet's payload is `[5, 9]`, with `9` taken from the first. */
  lemma StalePayload(stack: seq<uint8>)
    requires |stack| == BUFFER_MAX_SIZE
    ensures Offered(stack, [Received([1, 2, 7, 9]), Received([1, 2, 5])]) ==
            [MsgPacket(1, 2, Some([7, 9])), MsgPacket(1, 2, Some([5, 9]))]
  {
    var b1 := Overlay(stack, [1, 2, 7, 9]);
    OfferedTwo(stack, Received([1, 2, 7, 9]), Received([1, 2, 5]));
    FrameOfRead(stack, [1, 2, 7, 9]);
    FrameOfRead(b1, [1, 2, 5]);
  }

  /** Two reads, unfolded. */
  lemma OfferedTwo(stack: seq<uint8>, r1: ReadResult, r2: ReadResult)
    requires |stack| == BUFFER_MAX_SIZE
    ensures var b1 := Overlay(stack, Stored(r1));
            var b2 := Overlay(b1, Stored(r2));
            Offered(stack, [r1, r2]) ==
              (if FrameAt(b1).Some? then [FrameAt(b1).value] else []) +
              (if FrameAt(b2).Some? then [FrameAt(b2).value] else [])
  {
    var o := [r1, r2];
    assert o[..1] == [r1] && o[..1][..0] == [];
    assert BufferAfter(stack, o[..1]) == Overlay(stack, Stored(r1));
  }

  /** The packet built after reading `bytes` into `buffer`, where `bytes` holds at least
      the header and `buffer` one more byte. */
  lemma FrameOfRead(buffer: seq<uint8>, bytes: seq<uint8>)
    requires |buffer| == BUFFER_MAX_SIZE && 3 <= |bytes| <= 4 && bytes[1] == 2
    ensures Overlay(buffer, bytes)[3] == if |bytes| == 4 then bytes[3] else buffer[3]
    ensures FrameAt(Overlay(buffer, bytes)) ==
      Some(MsgPacket(bytes[0], 2, Some([bytes[2], Overlay(buffer, bytes)[3]])))
  {
    var b := Overlay(buffer, bytes);
    assert b[..|bytes|] == bytes;
    assert b[2..4] == [b[2], b[3]];
  }

  /** The frame at offset 0 of one read, delivered only when the read holds all of it. */
  function FrameChecked(bytes: seq<uint8>): (r: Option<MsgPacket>)
  {
    if |bytes| >= MESSAGE_MIN_LEN && DecodeFrame(bytes, 0).Some? && bytes[1] != 0
    then Some(DecodeFrame(bytes, 0).value.0) else None
  }

  /** The checked frame is built only from bytes of the current read, agrees with
      `ipc_read` on every read that holds a complete frame, and is refused exactly when
      the declared length runs past the bytes read. */
  lemma FrameCheckedIsFresh(stack: seq<uint8>, bytes: seq<uint8>)
    requires |stack| == BUFFER_MAX_SIZE && MESSAGE_MIN_LEN <= |bytes| <= BUFFER_MAX_SIZE
    ensures FrameChecked(bytes).Some? ==>
      FrameChecked(bytes) == FrameAt(Overlay(stack, bytes)) &&
      FrameChecked(bytes).value.msgData == Some(bytes[2..2 + bytes[1]])
    ensures FrameChecked(bytes).None? <==> bytes[1] == 0 || 2 + bytes[1] > |bytes|
  {
    if FrameChecked(bytes).Some? {
      FirstFrameAgrees(stack, bytes);
    }
  }
}
