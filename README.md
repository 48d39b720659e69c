# Ping-pong over TCP: queue, frame codecs, game rules, line reader and joystick

This project is a Dafny model of the sequential logic inside a small embedded Linux
repository:

- a terminal ping-pong game played over a TCP link;
- the transport library it uses;
- a character-device socket server;
- a joystick driver front end.

The model covers seven parts:

- **Receive queue** (`lib/libtcpipc/tcpipc_cb_fifo.c`, module `CbFifo`). A ring of ten
  message slots with a write cursor, a read cursor and a count. The class `RecvMsgCb`
  keeps the array of slots and a ghost sequence of the queued messages. Each of its
  methods is proved against the pure queue operations `Put` and `Take`. `RunIsFifo`
  proves FIFO order over any trace of operations.
- **Transport frame codec** (`lib/libtcpipc/tcpipc.c`, module `TcpIpc`). The frame
  layout `[msg_id][msg_len][payload]` and the result check of `tcpipc_send`. The frame
  decoder of the receive thread splits one read into back-to-back frames and discards an
  incomplete tail; `DemuxRead` is that loop. Also modelled: the receive thread's read
  loop, `tcpipc_terminate`, and the return code of `tcpipc_init`.
- **Earlier single-frame codec** (`app/ping-pong/ipc_common.c`, module `IpcCommon`).
  `ipc_write`, and the reader `ipc_read`, which takes at most one frame per read, from
  offset 0 of a stack buffer that keeps its contents across reads.
- **Networked game** (`app/ping-pong/pingpong.c`, module `PingPong`). Pad moves, the
  ball step with wall and pad bounces and scoring, new game and new round, the play area,
  and the payload layouts of the five messages with the receiver's mirroring. The C
  globals are the fields of class `Game`.
- **Local game** (`app/ping-pong/main.c`, module `PongLocal`). The single-machine
  version, with its narrower pad hit zone. It works on objects `BallObj` and `PadObj`
  passed by reference.
- **Line reader and seek command** (`lib/lib_tcp_ipc/server.c`, module `AesdSocket`).
  `sock_read` appends each chunk up to its first newline to a client's growing buffer.
  The `AESDCHAR_IOCSEEKTO:X,Y` parse cuts the fields with NUL bytes and converts them
  with `atoi`.
- **Joystick** (`lib/libjoystick/joystick.c`, module `Joystick`). The scan of the four
  ADC channels and the conversion of the readings to a button state and two signed
  positions.

Module `CTypes` holds the C integer types and conversions the other modules share:
`short` and `int8_t` narrowing, `uint8_t` increment, and C's truncating division.

I/O is modelled by parameters:

- The counts `read` and `write` return, and the bytes a read delivers, are inputs:
  `ReadResult` sequences, `written`, `writeResults`/`readResults`.
- The descriptors a call closes are returned as a sequence.
- A method that would block forever in `read` is modelled by running out of read
  outcomes.

## Model

| member | source | states |
|---|---|---|
| CTypes.ToInt16 | app/ping-pong/pingpong.c:58-62 | storing into a `short` keeps the value modulo 2^16 and leaves values in range unchanged |
| CTypes.ToInt8 | lib/libjoystick/joystick.c:77-78 | storing into an `int8_t` keeps the value modulo 256 and leaves values in range unchanged |
| CTypes.IncUint8 | app/ping-pong/pingpong.c:294 | `wins++` on a `uint8_t` adds one below 255 and wraps 255 to 0 |
| CTypes.TruncDiv | lib/libjoystick/joystick.c:77-78 | C `/` by a positive divisor: the quotient is rounded toward zero, with the remainder bounds for both signs of the dividend |
| CbFifo.Increment | lib/libtcpipc/tcpipc_cb_fifo.c:10-15 | the advanced cursor is `(ptr + 1) mod 10`, always a valid slot index |
| CbFifo.Put | lib/libtcpipc/tcpipc_cb_fifo.c:52-76 | enqueue fails with -1 exactly when ten messages are queued; the queue never exceeds ten |
| CbFifo.Take | lib/libtcpipc/tcpipc_cb_fifo.c:83-102 | dequeue fails exactly when the queue is empty and then leaves it as it was; otherwise the message handed out is the oldest and the queue is the rest |
| CbFifo.RunIsFifo | lib/libtcpipc/tcpipc_cb_fifo.c:52-102 | for any trace of enqueues and dequeues, the initial queue followed by the accepted messages equals the delivered messages followed by the final queue; the length never exceeds ten |
| CbFifo.EnqueueSlotIsEmpty | lib/libtcpipc/tcpipc_cb_fifo.c:62-66 | when the ring is not full, the slot at the write cursor holds no payload, so the free before the copy never releases a queued message |
| CbFifo.PutKeepsRing | lib/libtcpipc/tcpipc_cb_fifo.c:68-71 | writing the message into slot `(rptr + length) mod 10` keeps the slots in ring layout for the queue with the message appended |
| CbFifo.TakeKeepsRing | lib/libtcpipc/tcpipc_cb_fifo.c:93-98 | the slot at the read cursor holds the oldest message; zeroing it and advancing the cursor keeps the ring layout for the rest of the queue |
| CbFifo.RingPayloads | lib/libtcpipc/tcpipc_cb_fifo.c:38-42 | the payloads held by the ten slots are, as a multiset, exactly those of the queued messages |
| CbFifo.RecvMsgCb.constructor | lib/libtcpipc/tcpipc_cb_fifo.h:31-38 | the zero-initialised static ring: empty queue, cursors and count 0 |
| CbFifo.RecvMsgCb.Init | lib/libtcpipc/tcpipc_cb_fifo.c:24-29 | every slot is cleared to id 0, length 0, NULL payload; count and both cursors are 0; the queue is empty |
| CbFifo.RecvMsgCb.Enqueue | lib/libtcpipc/tcpipc_cb_fifo.c:52-76 | the new queue and return code are `Put` of the old queue. When full: -1, with slots, cursors and count unchanged. Otherwise: the message lands in slot `wptr`, `wptr` advances with wrap, `length` grows by one, 0 is returned. `wptr == (rptr + length) mod 10` is kept |
| CbFifo.RecvMsgCb.Dequeue | lib/libtcpipc/tcpipc_cb_fifo.c:83-102 | when empty: -1, the caller's message untouched and the ring unchanged. Otherwise: 0, the oldest message is handed out, its slot is zeroed, `rptr` advances with wrap, `length` shrinks by one. Agrees with `Take` |
| CbFifo.RecvMsgCb.Close | lib/libtcpipc/tcpipc_cb_fifo.c:36-45 | releases the payload of every slot that holds one, which as a multiset is the payloads of the queued messages |
| TcpIpc.Payload | lib/libtcpipc/tcpipc.c:82 | the copied payload has exactly `msg_len` bytes |
| TcpIpc.EncodeFrame | lib/libtcpipc/tcpipc.c:80-84 | the frame is `msg_len + 2` bytes: id, length, then the payload |
| TcpIpc.Send | lib/libtcpipc/tcpipc.c:75-107 | writes the encoded frame and returns 0 exactly when `write` reports all `msg_len + 2` bytes; an error, 0 or a short count gives -1 |
| TcpIpc.DecodeFrame | lib/libtcpipc/tcpipc.c:149-176 | at index `i`: no frame exactly when fewer than 2 header bytes remain or the declared length runs past the read. A frame takes id and length from the header, advances the index by `2 + msg_len` without passing the end, and has a NULL payload exactly when the length is 0, else a copy of exactly the declared bytes |
| TcpIpc.DecodeEncode | lib/libtcpipc/tcpipc.c:155-174 | decoding an encoded frame, wherever it sits in a read, gives back the same id, length and payload and consumes `msg_len + 2` bytes |
| TcpIpc.DecodeEncodeAll | lib/libtcpipc/tcpipc.c:149-182 | frames packed back to back in one read are all decoded, in stream order, up to a tail that holds no complete frame |
| TcpIpc.TailIsDropped | lib/libtcpipc/tcpipc.c:155-164 | after the packed frames, an incomplete tail yields no frame and is not consumed, so it is lost |
| TcpIpc.DecodeAll | lib/libtcpipc/tcpipc.c:149-182 | every frame decoded from a read is sendable again, with a NULL payload exactly when its length is 0, and a read of `n` bytes yields at most `n / 2` frames |
| TcpIpc.Consumed | lib/libtcpipc/tcpipc.c:149-182 | decoding stops at an index within the read where no complete frame starts; it stays at the start exactly when no frame starts there |
| TcpIpc.Offer | lib/libtcpipc/tcpipc.c:174 | enqueuing frames one after the other never lets the queue exceed ten |
| TcpIpc.OfferKeepsOrder | lib/libtcpipc/tcpipc.c:149-182 | the frames of a read are appended in order until the queue is full; the rest are dropped, because a failed enqueue is ignored and decoding continues |
| TcpIpc.OfferConcat | lib/libtcpipc/tcpipc.c:132-182 | offering the frames of two reads in turn is offering their concatenation |
| TcpIpc.DemuxRead | lib/libtcpipc/tcpipc.c:149-182 | the inner loop leaves the queue as `Offer` of the old queue and the frames `DecodeAll` finds in the read |
| TcpIpc.ReadCount | lib/libtcpipc/tcpipc.c:134-146 | the count `read` returns: negative exactly on an error, positive exactly when bytes arrived |
| TcpIpc.FirstStop | lib/libtcpipc/tcpipc.c:132-146 | the first read returning 0 or less; every read before it returned bytes |
| TcpIpc.SplitFrameIsDropped | lib/libtcpipc/tcpipc.c:135 | a frame whose bytes arrive in two reads is never delivered, while the same bytes in one read are |
| TcpIpc.Transport.RecvThread | lib/libtcpipc/tcpipc.c:124-189 | with `exit_status` set, the loop does not run. Otherwise it reads until the first error or end of stream, enqueues the frames of each read before that, then sets `exit_status` to 1. If no such read came, the thread is still reading and `exit_status` is 0 |
| TcpIpc.Transport.Terminate | lib/libtcpipc/tcpipc.c:324-339 | closes and zeroes each non-zero descriptor, server first, and returns 0; a second call closes nothing |
| TcpIpc.Transport.constructor | lib/libtcpipc/tcpipc.c:19-22 | the zero-initialised globals: both descriptors 0, `exit_status` 0 and an empty queue |
| TcpIpc.Transport.Init | lib/libtcpipc/tcpipc.c:29-62 | return code and started flag as `InitResult` says. For the server and client roles the setup first clears both socket records, so `exit_status` becomes 0 and the old descriptors are dropped, not closed. On success the descriptors are those `SetupFds` gives, the queue is re-initialised and the receive side started. On failure `tcpipc_terminate` closes exactly the descriptors the failed setup left (`InitClosed`), both end zeroed, and the queue is untouched. An invalid role changes no descriptor |
| TcpIpc.SetupFds | lib/libtcpipc/tcpipc.c:196-267 | the server's listening socket is `server_info.fd` and the accepted one `client_info.fd`, which stays 0 when the listening setup failed before `accept`; the client's socket is `client_info.fd` and `server_info.fd` stays 0 |
| TcpIpc.Closes | lib/libtcpipc/tcpipc.c:324-339 | the descriptors `tcpipc_terminate` closes: each non-zero one and no 0, the server's first and the client's last |
| TcpIpc.InitClosed | lib/libtcpipc/tcpipc.c:29-62 | on a failed setup or connect, terminate only closes descriptors that setup or connect produced |
| TcpIpc.FailedAcceptClosesBoth | lib/libtcpipc/tcpipc.c:252-263 | a failed `accept` leaves -1 in `client_info.fd`, so terminate closes the listening socket and then calls `close(-1)`; a failed client socket closes only that descriptor |
| TcpIpc.InitResult | lib/libtcpipc/tcpipc.c:29-62 | the receive side starts exactly when the role is invalid or both setup and connect succeed |
| TcpIpc.InitHidesFailure | lib/libtcpipc/tcpipc.c:34-38 | a failed setup returns 0, the same code as success |
| TcpIpc.InitResultChecked | lib/libtcpipc/tcpipc.c:29-62 | the corrected return code: 0 exactly when the receive side starts, -1 otherwise |
| IpcCommon.IpcWrite | app/ping-pong/ipc_common.c:61-93 | `ipc_write` writes the same frame as `tcpipc_send` and gives the same return code for every count `write` reports |
| IpcCommon.Overlay | app/ping-pong/ipc_common.c:19 | a read stores its bytes at the start of the buffer and leaves every later byte as it was |
| IpcCommon.FrameAt | app/ping-pong/ipc_common.c:34-46 | the packet is built from offset 0 (id byte 0, length byte 1, payload from byte 2) and is absent exactly when the length is 0 |
| IpcCommon.Offered | app/ping-pong/ipc_common.c:31-46 | at most one packet per read |
| IpcCommon.ShortRead | app/ping-pong/ipc_common.c:19-31 | the first read returning fewer than `MESSAGE_MIN_LEN` bytes (error and end of stream included); every read before it returned at least 3 bytes |
| IpcCommon.IpcRead | app/ping-pong/ipc_common.c:9-59 | with `exit_status` set, nothing is read and it becomes 1. Otherwise the packets enqueued are those at offset 0 after each read until the first short read, which ends the loop and sets `exit_status` to 1 |
| IpcCommon.ReadOnce | app/ping-pong/ipc_common.c:19-53 | one pass: the loop stops exactly on a short read; otherwise the read lands at the buffer's start and the frame at offset 0 is taken |
| IpcCommon.ReadInto | app/ping-pong/ipc_common.c:19 | copying a read into the buffer overwrites exactly its first bytes |
| IpcCommon.BufferAfter | app/ping-pong/ipc_common.c:14-19 | after a sequence of reads the buffer keeps its size and starts with the bytes of the last read |
| IpcCommon.FirstFrameAgrees | app/ping-pong/ipc_common.c:34-45 | when a read holds a complete non-empty frame at offset 0, `ipc_read` delivers the packet the transport decoder reads there, whatever else is in the buffer |
| IpcCommon.StalePayload | app/ping-pong/ipc_common.c:43-44 | a read shorter than its declared frame still delivers a packet whose payload ends with a byte left by the previous read |
| IpcCommon.FrameCheckedIsFresh | app/ping-pong/ipc_common.c:31-46 | the corrected read is refused exactly when the length is 0 or runs past the bytes read; otherwise it is built only from the current read and agrees with `ipc_read` |
| PingPong.PlayArea | app/ping-pong/pingpong.c:206-214 | each axis of the play area is the smaller of the two terminal sizes |
| PingPong.PadMoved | app/ping-pong/pingpong.c:322-327 | a pad move never changes the row or the score |
| PingPong.PadStaysOnBoard | app/ping-pong/pingpong.c:322-327 | a pad in columns 2 to `win_width - 3` stays there. It moves left exactly when asked and `x > 2`, right exactly when asked and `x < win_width - 3`, and otherwise not at all |
| PingPong.WallBounce | app/ping-pong/pingpong.c:281-282 | the horizontal direction flips exactly at columns 1 and `win_width - 1`; position and vertical direction are kept |
| PingPong.Centred | app/ping-pong/pingpong.c:255-258 | a new round moves the ball to the centre and keeps its directions |
| PingPong.PadContact | app/ping-pong/pingpong.c:288-296 | the ball misses exactly when it is more than two columns from the pad's centre, and is then re-centred; otherwise it keeps its position and vertical direction |
| PingPong.OnPadRows | app/ping-pong/pingpong.c:284-311 | player 1 scores only at rows 2 and above and player 2 only at rows `win_height - 2` and below; between them the ball is untouched and nobody scores |
| PingPong.Deflected | app/ping-pong/pingpong.c:279-311 | without a score the ball keeps its position; with one it is at the centre of the field |
| PingPong.Advance | app/ping-pong/pingpong.c:313-314 | the final step keeps both direction flags |
| PingPong.OneCellStep | app/ping-pong/pingpong.c:313-314 | each ball move ends with exactly one cell in x and one in y, in the directions of the flags |
| PingPong.TopRowScoring | app/ping-pong/pingpong.c:284-299 | at rows 2 and above the ball turns down. Player 1 scores exactly when the ball is more than two columns from p2's centre, and the ball is then re-centred. On the pad, the cells left of centre send it left and those right of centre send it right |
| PingPong.BottomRowScoring | app/ping-pong/pingpong.c:300-311 | the same at rows `win_height - 2` and below, for p1's pad and player 2 |
| PingPong.MiddleRowsNoScore | app/ping-pong/pingpong.c:279-311 | between the pad rows only the side walls act and nobody scores |
| PingPong.BallStaysBetweenPadRows | app/ping-pong/pingpong.c:279-315 | on a field at least six rows high, a ball between rows 2 and `win_height - 2` stays there after a move |
| PingPong.BallCanCrossSideWall | app/ping-pong/pingpong.c:281-291 | a pad deflection overrides the wall bounce, so a move can take the ball to column 0 |
| PingPong.Encode16 | app/ping-pong/pingpong.c:370-371 | a coordinate travels as two bytes |
| PingPong.Decode16 | app/ping-pong/pingpong.c:428-429 | reassembled little-endian bytes give a value in 0..65535 |
| PingPong.Decode16Encode16 | app/ping-pong/pingpong.c:369-376 | the two bytes keep the value modulo 2^16 |
| PingPong.Flags | app/ping-pong/pingpong.c:390-391 | the flags byte has a non-zero low nibble exactly when `movhor` is set and a non-zero high nibble exactly when `movver` is set |
| PingPong.Int16RoundTrip | app/ping-pong/pingpong.c:378-381 | every `short` survives encoding, reassembly and narrowing back to `short` |
| PingPong.Packet | app/ping-pong/pingpong.c:411-413 | the packet has the given id, `msg_len` equal to the number of bytes filled in, and a payload of exactly those bytes |
| PingPong.EncodeMsg | app/ping-pong/pingpong.c:362-416 | unknown ids send nothing (return -1). Known ids send a packet with that id, a consistent length and every byte the receiver reads |
| PingPong.DecodeMsg | app/ping-pong/pingpong.c:418-465 | a packet is refused exactly when its id is unknown |
| PingPong.Mirror | app/ping-pong/pingpong.c:438-448 | both direction flags are negated and each coordinate is `win - x` modulo 2^16 |
| PingPong.MirrorInvolution | app/ping-pong/pingpong.c:436-448 | mirroring the ball twice gives it back while the coordinates fit in a `short` |
| PingPong.WinSizeRoundTrip | app/ping-pong/pingpong.c:427-431 | window sizes 0..65535 arrive unchanged |
| PingPong.PadPosIsMirrored | app/ping-pong/pingpong.c:433-436 | the receiver places the sender's pad at `win_width - x` |
| PingPong.BallPosIsMirrored | app/ping-pong/pingpong.c:438-448 | the receiver's ball is at `win_width - x`, `win_height - y` with both direction flags negated |
| PingPong.GameStatusIsSwapped | app/ping-pong/pingpong.c:451-454 | the receiver assigns the two scores swapped |
| PingPong.RoundMsgs | app/ping-pong/pingpong.c:260-266 | a round starts with ball position, game status and SYNC, in that order |
| PingPong.Game.constructor | app/ping-pong/pingpong.c:84-93 | the zero-initialised globals with the role and terminal size |
| PingPong.Game.SetPlayArea | app/ping-pong/pingpong.c:206-214 | the window is set to `PlayArea` of the two terminal sizes |
| PingPong.Game.NewRound | app/ping-pong/pingpong.c:255-272 | the ball is re-centred; the server sends the round's three messages and the client sends none |
| PingPong.Game.NewGame | app/ping-pong/pingpong.c:232-248 | the ball is centred heading right with its vertical direction unchanged. The pads are centred on rows `win_height - 1` and 1 with scores 0. Then a new round starts |
| PingPong.Game.PadMov | app/ping-pong/pingpong.c:322-330 | the local pad moves as `PadMoved` says and its position is sent |
| PingPong.Game.BallMov | app/ping-pong/pingpong.c:279-315 | the ball ends as `Advance` of `Deflected`, the scorer's count goes up by one, and a score starts a new round |
| PingPong.Game.PadRows | app/ping-pong/pingpong.c:284-311 | the pad-row part of the move agrees with `OnPadRows` |
| PingPong.Game.RecvMsg | app/ping-pong/pingpong.c:418-465 | -1 for an empty queue or an unknown id, else the id. Only the field named by `DecodeMsg` changes |
| PongLocal.BallObj.constructor | app/ping-pong/main.c:33-37 | the ball object holds the given position and directions |
| PongLocal.PadObj.constructor | app/ping-pong/main.c:39-44 | the pad object holds the given position, lost flag and score |
| PongLocal.LocalPadStaysOnBoard | app/ping-pong/main.c:162-168 | a pad in columns 1 to `win_width - 6` stays there. It moves left exactly when asked and `x > 1`, right exactly when asked and `x < win_width - 6`, and otherwise not at all |
| PongLocal.LocalTopRowScoring | app/ping-pong/main.c:131-142 | at rows 2 and above the ball turns down. Player 1 scores exactly when the ball is more than one column from column `p2.x`, the left end of p2's pad as drawn, and the ball is then re-centred. The columns either side of `p2.x` send it away from `p2.x` |
| PongLocal.LocalBottomRowScoring | app/ping-pong/main.c:143-155 | the same at the bottom, for p1's pad and player 2 |
| PongLocal.LocalZoneIsNarrower | app/ping-pong/main.c:126-160 | the local game scores whenever the networked game does, with the same result. For the same pad columns, the two differ only for a ball two columns from `pad.x`, where only the local game scores. `pad.x` is the centre of the networked pad but the left end of the local one |
| PongLocal.PongInit | app/ping-pong/main.c:108-124 | the ball is centred heading left with its vertical direction unchanged; the pads start at column `win_width / 2`, their left end as drawn, on rows `win_height - 1` and 1, not lost, with no wins |
| PongLocal.PongPadMov | app/ping-pong/main.c:162-168 | the pad's column becomes `LocalPadMoved` of the old one |
| PongLocal.LocalPadMoved | app/ping-pong/main.c:162-168 | no move without a direction; a left move takes at most one column and only from `x > 1`; a right move takes at most one column and only below `win_width - PAD_WIDTH - 1` |
| PongLocal.PongBallPosUpdate | app/ping-pong/main.c:126-160 | the ball ends as `Advance` of `LocalDeflected`, and the scorer's `short` count goes up by one |
| PongLocal.PadRows | app/ping-pong/main.c:131-156 | the pad-row part of the update agrees with `LocalOnPadRows` |
| PongLocal.LocalContact | app/ping-pong/main.c:134-141 | the ball misses exactly when it is more than one column from column `pad.x`, the pad's left end as drawn, and is then re-centred; otherwise it keeps its position and vertical direction |
| PongLocal.LocalOnPadRows | app/ping-pong/main.c:131-156 | player 1 scores only at rows 2 and above and player 2 only at rows `win_height - 2` and below; between them the ball is untouched and nobody scores |
| PongLocal.LocalDeflected | app/ping-pong/main.c:128-156 | without a score the ball keeps its position; with one it is at the centre of the field |
| AesdSocket.IndexOf | lib/lib_tcp_ipc/server.c:465 | the position of the first occurrence of a character, or the length when it is absent |
| AesdSocket.KeptIsFirstLine | lib/lib_tcp_ipc/server.c:465-471 | the kept part is a prefix of the chunk. It holds a newline exactly when the chunk does, and then only as its last byte; without one it is the whole chunk |
| AesdSocket.Kept | lib/lib_tcp_ipc/server.c:465-471 | the kept part is a prefix of the chunk, and the whole chunk when it has no newline |
| AesdSocket.Gathered | lib/lib_tcp_ipc/server.c:465-487 | the buffer starts with the kept part of the first chunk: later reads only append |
| AesdSocket.FirstLineEnd | lib/lib_tcp_ipc/server.c:330-338 | the first read that ends the request, by a newline or a failed read; no earlier read held a newline |
| AesdSocket.FirstLineEndIs | lib/lib_tcp_ipc/server.c:330-338 | the index with those properties is `FirstLineEnd` |
| AesdSocket.GatheredIsOneLine | lib/lib_tcp_ipc/server.c:330-338 | the bytes gathered up to the first newline form one line ending in its only newline |
| AesdSocket.NoNewlineGathered | lib/lib_tcp_ipc/server.c:465-487 | chunks without a newline gather into a buffer without one |
| AesdSocket.ClientNode.constructor | lib/lib_tcp_ipc/server.c:237-243 | a new client starts with an empty buffer |
| AesdSocket.ClientNode.SockRead | lib/lib_tcp_ipc/server.c:449-493 | a failed read returns -1 with the buffer unchanged. Otherwise the buffer grows by the chunk up to and including its first newline, earlier contents kept, and 1 is returned exactly when the chunk held a newline, else 0 |
| AesdSocket.ClientNode.ReadRequest | lib/lib_tcp_ipc/server.c:330-338 | `sock_read` is repeated until the first newline or failure. The buffer gains exactly the kept parts of the chunks read, and the result tells a complete line (1) from a failed read (-1) |
| AesdSocket.ClientNode.ParseSeek | lib/lib_tcp_ipc/server.c:341-384 | the outcome is `Seek` of the line and the buffer ends as `SeekWritten` says, with the NUL bytes written in place |
| AesdSocket.Seek | lib/lib_tcp_ipc/server.c:341-384 | a line is written as data exactly when it does not start with the seek prefix |
| AesdSocket.SeekWritten | lib/lib_tcp_ipc/server.c:361-372 | writing the NUL bytes keeps the buffer's length |
| AesdSocket.RejectedIffFieldEmpty | lib/lib_tcp_ipc/server.c:341-369 | a line is rejected exactly when it is a seek command and its X field is empty or its comma is the byte before the final one |
| AesdSocket.SeekRoundTrip | lib/lib_tcp_ipc/server.c:341-375 | a command holding the decimal forms of any two integers parses back to them |
| AesdSocket.SeekOfFields | lib/lib_tcp_ipc/server.c:354-375 | with non-empty fields and no comma in X, the offsets are `atoi` of the X field and of the Y field |
| AesdSocket.FieldBounds | lib/lib_tcp_ipc/server.c:344-350 | in a seek command the colon is byte 18 and the comma lies after it and before the final byte |
| AesdSocket.DigitRun | lib/lib_tcp_ipc/server.c:364 | the length of the leading run of decimal digits `atoi` reads |
| AesdSocket.Atoi | lib/lib_tcp_ipc/server.c:364-375 | a negative result needs a leading minus after the white space; no characters, or a first character that is neither digit nor sign, gives 0 |
| AesdSocket.AtoiStopsAtNul | lib/lib_tcp_ipc/server.c:361-363 | `atoi` stops at the NUL written over the comma, so whatever follows does not change X |
| AesdSocket.NulCut | lib/lib_tcp_ipc/server.c:372-374 | writing NUL over the final byte and converting from the field's start is `atoi` of the field alone |
| AesdSocket.ToDecimal | lib/lib_tcp_ipc/server.c:364 | decimal forms are non-empty runs of digits |
| AesdSocket.DigitsValueToDecimal | lib/lib_tcp_ipc/server.c:364 | a decimal form reads back as its number |
| AesdSocket.Format | lib/lib_tcp_ipc/server.c:364-375 | models no code of its own: it is the reference inverse of `atoi` used to state `SeekRoundTrip`. The decimal form is non-empty, starts with a minus exactly for negatives and otherwise with a digit, and holds no comma and no newline, so it cannot end a field early |
| AesdSocket.AtoiFormat | lib/lib_tcp_ipc/server.c:364 | `atoi` of the decimal form of any integer is that integer |
| Joystick.ChannelDigits | lib/libjoystick/joystick.c:49-70 | the channels selected are the characters '0' to '3' in order |
| Joystick.Button | lib/libjoystick/joystick.c:76 | the button is 1 exactly when the reading is below 10, else 0 |
| Joystick.Position | lib/libjoystick/joystick.c:77-78 | the `int8_t` store keeps the scaled value modulo 256, and unchanged when it lies in -128..127 |
| Joystick.Convert | lib/libjoystick/joystick.c:74-79 | the button is set exactly when channel 0 reads below 10, and readings at the rest values give position 0 on that axis |
| Joystick.ButtonIffLowReading | lib/libjoystick/joystick.c:76 | the button is 1 exactly when the channel-0 reading is below 10, else 0; channel 1 has no effect |
| Joystick.RestIsCentre | lib/libjoystick/joystick.c:77-78 | readings at the rest values 13100 (y) and 13500 (x) give position 0 |
| Joystick.PositionInRange | lib/libjoystick/joystick.c:77-78 | for readings up to rest + 15117, the scaled value lies in -128..115, so the `int8_t` store keeps it unchanged |
| Joystick.PositionMonotone | lib/libjoystick/joystick.c:77-78 | within that range, a higher reading never gives a higher position |
| Joystick.TruncDivMonotone | lib/libjoystick/joystick.c:77-78 | C's truncating division is monotone in the dividend |
| Joystick.PositionWrapsPastRange | lib/libjoystick/joystick.c:77 | above that range the `int8_t` store wraps: y reading 28217 gives -128, and 28218 gives 127 |
| Joystick.FailedStep | lib/libjoystick/joystick.c:52-68 | the first channel whose write or read failed; every earlier one succeeded in both |
| Joystick.Steps | lib/libjoystick/joystick.c:52-71 | the scan of `k` channels is a select then a read of each, channels '0' upward |
| Joystick.ScanResult | lib/libjoystick/joystick.c:52-90 | the code is negative exactly when some write or read failed; a complete scan returns the last read's count |
| Joystick.ScanOutcome | lib/libjoystick/joystick.c:52-90 | the scan returns a negative code exactly when some write or read failed; a complete scan selects and reads channels '0' to '3' in turn |
| Joystick.JoystickDevice.constructor | lib/libjoystick/joystick.c:18-28 | the device holds the given descriptor |
| Joystick.JoystickDevice.Close | lib/libjoystick/joystick.c:35-39 | the descriptor is closed exactly when it is greater than 0 |
| Joystick.JoystickDevice.Read | lib/libjoystick/joystick.c:46-91 | the return code and device operations are those of the scan. On success the caller's data becomes `Convert` of the four readings; on failure it is untouched |
| Joystick.JoystickData.constructor | lib/libjoystick/joystick.h:28-33 | the data record holds the given position and button |

## Left out

- The FIFO mutex. It only serialises the operations, which a sequential model already does.
- Socket creation and connection (`tcpipc_server_setup`, `tcpipc_client_setup` and
  their connect calls). Their outcome is the `setupStatus`/`connectStatus` parameter of
  `TcpIpc.Transport.Init`.
- TcpIpc.Transport.Init returns only the descriptors `tcpipc_terminate` closes. When the
  client's `connect` fails, `tcpipc_client_connect` has already closed the socket itself,
  so it is closed twice; the earlier close is not in the model's list.
- `pthread_create`/`pthread_join`. Starting the receive side is a flag.
- `tcpipc_recv` and `tcpipc_close`, which only delegate to the queue and to
  `tcpipc_terminate`.
- The application's own receive queue used by `ipc_read` (`app/ping-pong/ipc_cb_fifo.c`)
  is not part of this model. `IpcCommon.IpcRead` returns the packets it would enqueue.
- Heap ownership: `malloc`, `realloc` and `free` and their failure paths. Payloads are
  value sequences, and `recv_msg_close` returns the payloads it would free.
- Rendering and input: ncurses screen updates, the `getch`/`usleep` main loops,
  `pingpong_init`'s screen setup, and the print helpers.
- The client side of `pingpong_new_round`, which waits for a SYNC message.
  `PingPong.Game.NewRound` models only the re-centring and the server's messages.
- The SYNC payload byte. `pingpong_send_msg` never writes it, so it is the parameter
  `syncByte`.
- `pingpong_send_msg` passes its packet to `tcpipc_send` and ignores the result.
  `PingPong.Game.PadMov` and the round methods return the packets instead.
- PingPong.DecodeMsg requires a payload as long as its id's layout. A shorter packet makes
  the C read past its payload or through a NULL pointer, which the model does not give a
  value to.
- The local game's hit zone is offset from its drawn pad. The pad is drawn at columns
  `pad.x` to `pad.x + 4` (main.c:181-185), but `pong_ball_pos_update` deflects only at
  `pad.x - 1`, `pad.x` and `pad.x + 1`. So a ball over the right three cells of the pad
  scores, and one in the column left of it is deflected. The model keeps this rule as
  written.
- `AesdSocket.IsSeekCommand` treats a line shorter than the 19-byte prefix as a plain
  write. The C's `memcmp` at server.c:341 still reads 19 bytes from the shorter buffer,
  past its end, which is undefined behaviour the model does not give a value to. The
  mismatch is decided by the line's final newline at the latest, so a plain write is the
  practical outcome.
- AesdSocket.ClientNode.ParseSeek requires that a seek command contains a comma. The
  guards at lines 346 and 352 compare a reversed pointer difference: with a comma they
  never fire; without one, the guard at line 352 subtracts a NULL pointer, undefined
  behaviour the model does not give a value to.
- The `ioctl` call and `struct aesd_seekto` are not part of this model. The parse
  returns the two offsets.
- The rest of `server.c` is not part of this model: the plain write to the data file, the
  file lock, `main`, daemonising, signals and timestamps.
- AesdSocket.Atoi models `atoi` on optional white space, an optional sign and decimal
  digits. It does not model C `int` overflow for numbers outside 32 bits.
- The joystick's `usleep` pacing and its debug logging.
- The ADC driver (`ldd/ads1115`) is not part of this model. The four readings are the
  parameter `readings`.
- TcpIpc.Send and IpcCommon.IpcWrite require the packet's payload to hold `msg_len` bytes
  (`Sendable`). The C copies `msg_len` bytes from the pointer it is given and has no
  other behaviour to model.
- Behaviour of the code that the model keeps as written:
  - The transport does not keep an incomplete frame across reads (`TcpIpc.TailIsDropped`,
    `TcpIpc.SplitFrameIsDropped`).
  - `tcpipc_init` returns 0 when setup fails (see Findings).
  - A payload over 255 bytes cannot be expressed, since `msg_len` is a `uint8_t`.
  - The "empty Y" check of the seek parse fires when the comma is the byte before the
    final one, not when the comma is the final byte.
  - `joystick_read` returns the byte count of the last read on success, not 0.

## Findings

| source | as written | input that shows it | evidently intended | confidence | as-written member | corrected member |
|---|---|---|---|---|---|---|
| app/ping-pong/ipc_common.c:43-44 | `ipc_read` copies `msg_len` bytes from offset 2 without comparing them with the count read, so a short read delivers bytes left by an earlier read | a read of `[1, 2, 7, 9]` followed by a read of `[1, 2, 5]` delivers the second packet with payload `[5, 9]` | deliver a frame only when the read holds all its declared bytes | not executed | IpcCommon.StalePayload | IpcCommon.FrameCheckedIsFresh |
| lib/libtcpipc/tcpipc.c:34-38 | on a failed setup or connect, `tcpipc_init` returns the result of `tcpipc_terminate`, which is always 0 | server role with a setup that fails: return code 0, the same as success, and no receive side started | return a non-zero error code when setup or connect fails | not executed | TcpIpc.InitHidesFailure | TcpIpc.InitResultChecked |
