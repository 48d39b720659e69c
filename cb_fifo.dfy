/** The receive queue of lib/libtcpipc: a ring of RECV_MESSAGE_CB_LEN message slots
    with a write cursor, a read cursor and a count, filled by the receive thread and
    drained by the application. The mutex of the C code is not modelled: it only
    serialises the operations, and a sequential model has them serialised already. */
module CbFifo {
  import opened CTypes

  const RECV_MESSAGE_CB_LEN: nat := 10

  /** `struct msg_packet_t`: the payload pointer is `None` for NULL. */
  datatype MsgPacket = MsgPacket(msgId: uint8, msgLen: uint8, msgData: Option<seq<uint8>>)

  /** A slot as `memset(…, 0, …)` leaves it: id 0, length 0, NULL payload. */
  const EmptyPacket := MsgPacket(0, 0, None)

  /** `INCREMENT_CB_POINTER`: advance a cursor by one, wrapping from the last slot to 0. */
  function Increment(ptr: nat): (r: nat)
    requires ptr < RECV_MESSAGE_CB_LEN
    ensures r < RECV_MESSAGE_CB_LEN
    ensures r == (ptr + 1) % RECV_MESSAGE_CB_LEN
  {
    if ptr + 1 >= RECV_MESSAGE_CB_LEN then 0 else ptr + 1
  }

  // ---------------------------------------------------------------------------
  // The queue as a sequence of messages

  /** `recv_msg_enqueue` on the queued messages `q`: the new queue and the return code. */
  function Put(q: seq<MsgPacket>, m: MsgPacket): (res: (seq<MsgPacket>, int))
    requires |q| <= RECV_MESSAGE_CB_LEN
    ensures |res.0| <= RECV_MESSAGE_CB_LEN
    ensures res.1 == -1 <==> |q| == RECV_MESSAGE_CB_LEN
  {
    if |q| == RECV_MESSAGE_CB_LEN then (q, -1) else (q + [m], 0)
  }

  /** `recv_msg_dequeue` on the queued messages `q`: the new queue and the message handed out. */
  function Take(q: seq<MsgPacket>): (res: (seq<MsgPacket>, Option<MsgPacket>))
    ensures res.1.None? <==> q == []
    ensures res.1.None? ==> res.0 == q
    ensures res.1.Some? ==> q == [res.1.value] + res.0
  {
    if q == [] then (q, None) else (q[1..], Some(q[0]))
  }

  datatype Op = Enqueue(m: MsgPacket) | Dequeue

  /** Runs a trace of queue operations from the queue `q`; the result is the final queue,
      the messages enqueue accepted and the messages dequeue handed out, each in order. */
  function Run(q: seq<MsgPacket>, ops: seq<Op>): (res: (seq<MsgPacket>, seq<MsgPacket>, seq<MsgPacket>))
    requires |q| <= RECV_MESSAGE_CB_LEN
    decreases |ops|
  {
    if ops == [] then (q, [], [])
    else match ops[0]
      case Enqueue(m) =>
        var (q1, r) := Put(q, m);
        var (f, a, d) := Run(q1, ops[1..]);
        (f, if r == 0 then [m] + a else a, d)
      case Dequeue =>
        var (q1, o) := Take(q);
        var (f, a, d) := Run(q1, ops[1..]);
        (f, a, if o.Some? then [o.value] + d else d)
  }

  /** FIFO order and the capacity bound for every trace: what was queued, followed by what
      was accepted, is what was handed out followed by what is still queued. */
  lemma {:induction false} RunIsFifo(q: seq<MsgPacket>, ops: seq<Op>)
    requires |q| <= RECV_MESSAGE_CB_LEN
    ensures q + Run(q, ops).1 == Run(q, ops).2 + Run(q, ops).0
    ensures |Run(q, ops).0| <= RECV_MESSAGE_CB_LEN
    decreases |ops|
  {
    if ops != [] {
      match ops[0]
      case Enqueue(m) =>
        var (q1, r) := Put(q, m);
        RunIsFifo(q1, ops[1..]);
        if r == 0 {
          assert q + ([m] + Run(q1, ops[1..]).1) == q1 + Run(q1, ops[1..]).1;
        }
      case Dequeue =>
        var (q1, o) := Take(q);
        RunIsFifo(q1, ops[1..]);
        if o.Some? {
          assert q + Run(q1, ops[1..]).1 == [q[0]] + (q1 + Run(q1, ops[1..]).1);
        }
    }
  }

  // ---------------------------------------------------------------------------
  // The ring of slots

  /** Position of physical slot `i` counted from the read cursor. */
  function Offset(i: nat, rptr: nat): (k: nat)
    requires i < RECV_MESSAGE_CB_LEN && rptr < RECV_MESSAGE_CB_LEN
    ensures k < RECV_MESSAGE_CB_LEN
    ensures (rptr + k) % RECV_MESSAGE_CB_LEN == i
  {
    if i >= rptr then i - rptr else i + RECV_MESSAGE_CB_LEN - rptr
  }

  /** The ring `slots` read from `rptr` holds exactly `q`, and every other slot is zeroed. */
  ghost predicate RingHolds(slots: seq<MsgPacket>, rptr: nat, q: seq<MsgPacket>)
  {
    |slots| == RECV_MESSAGE_CB_LEN && rptr < RECV_MESSAGE_CB_LEN && |q| <= RECV_MESSAGE_CB_LEN &&
    forall i :: 0 <= i < RECV_MESSAGE_CB_LEN ==>
      slots[i] == (if Offset(i, rptr) < |q| then q[Offset(i, rptr)] else EmptyPacket)
  }

  /** The slot an accepted enqueue writes is always zeroed, so the `free` of its old
      payload in `recv_msg_enqueue` never releases anything. */
  lemma EnqueueSlotIsEmpty(slots: seq<MsgPacket>, rptr: nat, q: seq<MsgPacket>)
    requires RingHolds(slots, rptr, q) && |q| < RECV_MESSAGE_CB_LEN
    ensures slots[(rptr + |q|) % RECV_MESSAGE_CB_LEN] == EmptyPacket
  {
    var w := (rptr + |q|) % RECV_MESSAGE_CB_LEN;
    assert Offset(w, rptr) == |q|;
  }

  /** Writing the slot at the write cursor appends to the queue. */
  lemma PutKeepsRing(slots: seq<MsgPacket>, rptr: nat, q: seq<MsgPacket>, m: MsgPacket)
    requires RingHolds(slots, rptr, q) && |q| < RECV_MESSAGE_CB_LEN
    ensures RingHolds(slots[(rptr + |q|) % RECV_MESSAGE_CB_LEN := m], rptr, q + [m])
  {
    var w := (rptr + |q|) % RECV_MESSAGE_CB_LEN;
    var s' := slots[w := m];
    forall i | 0 <= i < RECV_MESSAGE_CB_LEN
      ensures s'[i] == (if Offset(i, rptr) < |q + [m]| then (q + [m])[Offset(i, rptr)] else EmptyPacket)
    {
      if i == w {
        assert Offset(i, rptr) == |q|;
      }
    }
  }

  /** Zeroing the slot at the read cursor and advancing it drops the head of the queue. */
  lemma TakeKeepsRing(slots: seq<MsgPacket>, rptr: nat, q: seq<MsgPacket>)
    requires RingHolds(slots, rptr, q) && q != []
    ensures slots[rptr] == q[0]
    ensures RingHolds(slots[rptr := EmptyPacket], Increment(rptr), q[1..])
  {
    assert Offset(rptr, rptr) == 0;
    var r' := Increment(rptr);
    var s' := slots[rptr := EmptyPacket];
    forall i | 0 <= i < RECV_MESSAGE_CB_LEN
      ensures s'[i] == (if Offset(i, r') < |q[1..]| then q[1..][Offset(i, r')] else EmptyPacket)
    {
      if i != rptr {
        assert Offset(i, r') + 1 == Offset(i, rptr);
      } else {
        assert Offset(i, r') == RECV_MESSAGE_CB_LEN - 1;
      }
    }
  }

  /** The payloads still held, in order, skipping NULL ones. */
  function Payloads(s: seq<MsgPacket>): seq<seq<uint8>>
  {
    if s == [] then []
    else Payloads(s[..|s| - 1]) + (if s[|s| - 1].msgData.Some? then [s[|s| - 1].msgData.value] else [])
  }

  lemma {:induction false} PayloadsAppend(a: seq<MsgPacket>, b: seq<MsgPacket>)
    ensures Payloads(a + b) == Payloads(a) + Payloads(b)
    decreases |b|
  {
    if b != [] {
      var b' := b[..|b| - 1];
      assert (a + b)[..|a + b| - 1] == a + b';
      PayloadsAppend(a, b');
    } else {
      assert a + b == a;
    }
  }

  lemma {:induction false} PayloadsOfEmpties(s: seq<MsgPacket>)
    requires forall i :: 0 <= i < |s| ==> s[i] == EmptyPacket
    ensures Payloads(s) == []
    decreases |s|
  {
    if s != [] {
      PayloadsOfEmpties(s[..|s| - 1]);
    }
  }

  /** Reading the ring from the read cursor gives the queue followed by zeroed slots. */
  lemma RotatedRing(slots: seq<MsgPacket>, rptr: nat, q: seq<MsgPacket>)
    requires RingHolds(slots, rptr, q)
    ensures slots[rptr..] + slots[..rptr] == q + seq(RECV_MESSAGE_CB_LEN - |q|, _ => EmptyPacket)
  {
    var rot := slots[rptr..] + slots[..rptr];
    var want := q + seq(RECV_MESSAGE_CB_LEN - |q|, _ => EmptyPacket);
    forall k | 0 <= k < RECV_MESSAGE_CB_LEN
      ensures rot[k] == want[k]
    {
      var i := if k < RECV_MESSAGE_CB_LEN - rptr then rptr + k else k + rptr - RECV_MESSAGE_CB_LEN;
      assert Offset(i, rptr) == k;
      assert rot[k] == slots[i];
    }
  }

  lemma PayloadsSwap(a: seq<MsgPacket>, b: seq<MsgPacket>)
    ensures multiset(Payloads(a + b)) == multiset(Payloads(b + a))
  {
    PayloadsAppend(a, b);
    PayloadsAppend(b, a);
  }

  /** The payloads found by scanning every slot are exactly those of the queued messages. */
  lemma RingPayloads(slots: seq<MsgPacket>, rptr: nat, q: seq<MsgPacket>)
    requires RingHolds(slots, rptr, q)
    ensures multiset(Payloads(slots)) == multiset(Payloads(q))
  {
    var empties := seq(RECV_MESSAGE_CB_LEN - |q|, _ => EmptyPacket);
    var a, b := slots[..rptr], slots[rptr..];
    RotatedRing(slots, rptr, q);
    assert b + a == q + empties;
    assert a + b == slots;
    PayloadsSwap(a, b);
    PayloadsOfEmpties(empties);
    PayloadsAppend(q, empties);
    assert Payloads(q + empties) == Payloads(q);
  }

  // ---------------------------------------------------------------------------
  // The static `recv_msg_cb` object

  class RecvMsgCb {
    var msgArray: array<MsgPacket>
    var wptr: nat
    var rptr: nat
    var length: nat
    /** The queued messages, oldest first. */
    ghost var Contents: seq<MsgPacket>

    ghost predicate Valid()
      reads this, msgArray
    {
      msgArray.Length == RECV_MESSAGE_CB_LEN &&
      wptr < RECV_MESSAGE_CB_LEN && rptr < RECV_MESSAGE_CB_LEN && length <= RECV_MESSAGE_CB_LEN &&
      wptr == (rptr + length) % RECV_MESSAGE_CB_LEN &&
      |Contents| == length &&
      RingHolds(msgArray[..], rptr, Contents)
    }

    /** The zero-initialised static storage of `recv_msg_cb`. */
    constructor ()
      ensures Valid() && fresh(msgArray)
      ensures Contents == [] && wptr == 0 && rptr == 0 && length == 0
    {
      msgArray := new MsgPacket[RECV_MESSAGE_CB_LEN](_ => EmptyPacket);
      wptr, rptr, length := 0, 0, 0;
      Contents := [];
    }

    /** `recv_msg_init`: zero every slot, both cursors and the count. */
    method Init()
      requires msgArray.Length == RECV_MESSAGE_CB_LEN
      modifies this, msgArray
      ensures msgArray == old(msgArray)
      ensures Valid() && Contents == []
      ensures wptr == 0 && rptr == 0 && length == 0
      ensures forall i :: 0 <= i < msgArray.Length ==> msgArray[i] == EmptyPacket
    {
      for i := 0 to msgArray.Length
        invariant msgArray == old(msgArray)
        invariant forall j :: 0 <= j < i ==> msgArray[j] == EmptyPacket
      {
        msgArray[i] := EmptyPacket;
      }
      wptr, rptr, length := 0, 0, 0;
      Contents := [];
    }

    /** `recv_msg_enqueue`: -1 and no change when full; otherwise the message is copied into
        the slot at `wptr`, `wptr` advances with wrap-around, `length` grows and 0 is returned. */
    method Enqueue(msg: MsgPacket) returns (r: int)
      requires Valid()
      modifies this, msgArray
      ensures Valid() && msgArray == old(msgArray)
      ensures (Contents, r) == Put(old(Contents), msg)
      ensures r == -1 ==> msgArray[..] == old(msgArray[..]) && wptr == old(wptr) && rptr == old(rptr) && length == old(length)
      ensures r == 0 ==> old(msgArray[wptr]) == EmptyPacket
      ensures r == 0 ==> msgArray[..] == old(msgArray[..])[old(wptr) := msg]
      ensures r == 0 ==> wptr == Increment(old(wptr)) && rptr == old(rptr) && length == old(length) + 1
    {
      if length == RECV_MESSAGE_CB_LEN {
        return -1;
      }
      // The C code frees a payload still held by this slot; the slot is always zeroed,
      // so that free never happens and is not repeated here.
      EnqueueSlotIsEmpty(msgArray[..], rptr, Contents);
      PutKeepsRing(msgArray[..], rptr, Contents, msg);
      msgArray[wptr] := msg;
      wptr := Increment(wptr);
      length := length + 1;
      Contents := Contents + [msg];
      r := 0;
    }

    /** `recv_msg_dequeue`: -1 and no change (the caller's packet `msgIn` is handed back) when
        empty; otherwise the slot at `rptr` is handed out and zeroed, `rptr` advances with
        wrap-around, `length` shrinks and 0 is returned. */
    method Dequeue(msgIn: MsgPacket) returns (r: int, msg: MsgPacket)
      requires Valid()
      modifies this, msgArray
      ensures Valid() && msgArray == old(msgArray)
      ensures Take(old(Contents)) == (Contents, if r == 0 then Some(msg) else None)
      ensures r == (if old(length) == 0 then -1 else 0)
      ensures r == -1 ==> msg == msgIn && msgArray[..] == old(msgArray[..]) && wptr == old(wptr) && rptr == old(rptr) && length == old(length)
      ensures r == 0 ==> msg == old(msgArray[rptr]) && msgArray[..] == old(msgArray[..])[old(rptr) := EmptyPacket]
      ensures r == 0 ==> rptr == Increment(old(rptr)) && wptr == old(wptr) && length == old(length) - 1
    {
      if length == 0 {
        return -1, msgIn;
      }
      TakeKeepsRing(msgArray[..], rptr, Contents);
      msg := msgArray[rptr];
      msgArray[rptr] := EmptyPacket;
      rptr := Increment(rptr);
      length := length - 1;
      Contents := Contents[1..];
      r := 0;
    }

    /** `recv_msg_close`: every payload still held by a slot is released; they are exactly the
        payloads of the messages still queued. */
    method Close() returns (released: seq<seq<uint8>>)
      requires Valid()
      ensures released == Payloads(msgArray[..])
      ensures multiset(released) == multiset(Payloads(Contents))
    {
      released := [];
      for i := 0 to RECV_MESSAGE_CB_LEN
        invariant released == Payloads(msgArray[..i])
      {
        assert msgArray[..i + 1][..i] == msgArray[..i];
        if msgArray[i].msgData.Some? {
          released := released + [msgArray[i].msgData.value];
        }
      }
      assert msgArray[..RECV_MESSAGE_CB_LEN] == msgArray[..];
      RingPayloads(msgArray[..], rptr, Contents);
    }
  }
}
