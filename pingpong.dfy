/** The networked pong game of the ping-pong application: pads that move one cell at a
    time, a ball that steps one cell per axis and bounces off the side walls and the
    pads, scoring when a pad misses, and the payloads the two players exchange. The
    receiver sees the field rotated by half a turn: it mirrors coordinates, negates the
    direction flags and swaps the scores.

    The globals `ball_obj`, `p1_pad`, `p2_pad` and the window sizes are the fields of
    class `Game`; each method is tied to a pure step function, about which the lemmas
    speak. Sending is modelled by returning the packets handed to `tcpipc_send`. */
module PingPong {
  import opened CTypes
  import opened CbFifo
  import opened TcpIpc

  const PAD_WIDTH_HALF: int := 2

  /** `enum msg_id_e` of the transport header */
  const MSG_ID_SYNC: int := 1
  const MSG_ID_WIN_SIZE: int := 2
  const MSG_ID_PAD_POS: int := 3
  const MSG_ID_BALL_POS: int := 4
  const MSG_ID_GAME_STATUS: int := 5

  datatype WindowInfo = WindowInfo(width: int, height: int)
  datatype Ball = Ball(x: int16, y: int16, movhor: bool, movver: bool)
  datatype Pad = Pad(x: int16, y: int16, wins: uint8)
  datatype MovDir = MovNone | MovLeft | MovRight
  /** Who won the point in one ball step. */
  datatype Scorer = Nobody | Player1 | Player2

  // ---------------------------------------------------------------------------
  // Window size

  /** The play area: per axis, the smaller of the two terminal sizes. */
  function PlayArea(own: WindowInfo, opp: WindowInfo): (r: WindowInfo)
    ensures r.width <= own.width && r.width <= opp.width
    ensures r.width == own.width || r.width == opp.width
    ensures r.height <= own.height && r.height <= opp.height
    ensures r.height == own.height || r.height == opp.height
  {
    WindowInfo(if own.width <= opp.width then own.width else opp.width,
               if own.height <= opp.height then own.height else opp.height)
  }

  // ---------------------------------------------------------------------------
  // Pads

  /** `pingpong_pad_mov` on a pad: left while the pad is right of column 2, right while
      it is left of column `winWidth - 3`. */
  function PadMoved(pad: Pad, dir: MovDir, winWidth: int): (r: Pad)
    ensures r.y == pad.y && r.wins == pad.wins
  {
    var x1 := if pad.x > PAD_WIDTH_HALF && dir == MovLeft then ToInt16(pad.x - 1) else pad.x;
    var x2 := if x1 < winWidth - PAD_WIDTH_HALF - 1 && dir == MovRight then ToInt16(x1 + 1) else x1;
    pad.(x := x2)
  }

  /** A pad on the board, columns 2 to `winWidth - 3`, stays there, moves by at most one
      cell, and moves exactly when the direction asks for it and the edge allows it. */
  lemma PadStaysOnBoard(pad: Pad, dir: MovDir, winWidth: int)
    requires winWidth <= 32770
    requires PAD_WIDTH_HALF <= pad.x <= winWidth - PAD_WIDTH_HALF - 1
    ensures var r := PadMoved(pad, dir, winWidth);
      PAD_WIDTH_HALF <= r.x <= winWidth - PAD_WIDTH_HALF - 1 &&
      (r.x == pad.x - 1 <==> dir == MovLeft && pad.x > PAD_WIDTH_HALF) &&
      (r.x == pad.x + 1 <==> dir == MovRight && pad.x < winWidth - PAD_WIDTH_HALF - 1) &&
      (r.x == pad.x <==> !(r.x == pad.x - 1 || r.x == pad.x + 1))
  {
  }

  // ---------------------------------------------------------------------------
  // Ball

  /** The side walls, columns 1 and `winWidth - 1`, flip the horizontal direction. */
  function WallBounce(b: Ball, winWidth: int): (r: Ball)
    ensures r.x == b.x && r.y == b.y && r.movver == b.movver
    ensures r.movhor != b.movhor <==> b.x == 1 || b.x == winWidth - 1
  {
    if b.x == winWidth - 1 || b.x == 1 then b.(movhor := !b.movhor) else b
  }

  /** The ball moved to the centre of the field, directions kept. */
  function Centred(b: Ball, winWidth: int, winHeight: int): (r: Ball)
    ensures r.movhor == b.movhor && r.movver == b.movver
  {
    b.(x := ToInt16(TruncDiv(winWidth, 2)), y := ToInt16(TruncDiv(winHeight, 2)))
  }

  /** The ball on a pad's row: the two cells left of the pad's centre send it left, the
      two cells right of it send it right, the centre leaves it as it is, and any other
      column is a miss, which re-centres the ball (`true` in the second component). */
  function PadContact(b: Ball, padX: int, winWidth: int, winHeight: int): (r: (Ball, bool))
    ensures r.1 <==> b.x < padX - PAD_WIDTH_HALF || b.x > padX + PAD_WIDTH_HALF
    ensures r.1 ==> r.0 == Centred(b, winWidth, winHeight)
    ensures !r.1 ==> r.0.x == b.x && r.0.y == b.y && r.0.movver == b.movver
  {
    if b.x == padX - PAD_WIDTH_HALF || b.x == padX - PAD_WIDTH_HALF + 1 then (b.(movhor := false), false)
    else if b.x == padX + PAD_WIDTH_HALF || b.x == padX + PAD_WIDTH_HALF - 1 then (b.(movhor := true), false)
    else if b.x != padX then (Centred(b, winWidth, winHeight), true)
    else (b, false)
  }

  /** The ball as `pingpong_ball_mov` leaves it just before its final step, and who
      scored: rows 2 and above face p2's pad and turn the ball down, rows `winHeight - 2`
      and below face p1's pad and turn it up. */
  function Deflected(b: Ball, p1: Pad, p2: Pad, winWidth: int, winHeight: int): (r: (Ball, Scorer))
    ensures r.1 == Nobody ==> r.0.x == b.x && r.0.y == b.y
    ensures r.1 != Nobody ==> r.0.x == ToInt16(TruncDiv(winWidth, 2)) && r.0.y == ToInt16(TruncDiv(winHeight, 2))
  {
    OnPadRows(WallBounce(b, winWidth), p1, p2, winWidth, winHeight)
  }

  /** The pad rows' part of `Deflected`. */
  function OnPadRows(b1: Ball, p1: Pad, p2: Pad, winWidth: int, winHeight: int): (r: (Ball, Scorer))
    ensures r.1 == Player1 ==> b1.y <= 2
    ensures r.1 == Player2 ==> 2 < b1.y && b1.y >= winHeight - 2
    ensures 2 < b1.y < winHeight - 2 ==> r == (b1, Nobody)
  {
    if b1.y <= 2 then
      var c := PadContact(b1.(movver := true), p2.x, winWidth, winHeight);
      (c.0, if c.1 then Player1 else Nobody)
    else if b1.y >= winHeight - 2 then
      var c := PadContact(b1.(movver := false), p1.x, winWidth, winHeight);
      (c.0, if c.1 then Player2 else Nobody)
    else
      (b1, Nobody)
  }

  /** The final step: one cell in each axis, in the directions of the flags. */
  function Advance(b: Ball): (r: Ball)
    ensures r.movhor == b.movhor && r.movver == b.movver
  {
    b.(x := ToInt16(if b.movhor then b.x + 1 else b.x - 1),
       y := ToInt16(if b.movver then b.y + 1 else b.y - 1))
  }

  /** A score counter after a step. */
  function WinsAfter(wins: uint8, scorer: Scorer, owner: Scorer): uint8
  {
    if scorer == owner then IncUint8(wins) else wins
  }

  /** The ball moves exactly one cell diagonally, right when `movhor`, down when `movver`. */
  lemma OneCellStep(b: Ball)
    requires -32768 < b.x < 32767 && -32768 < b.y < 32767
    ensures var r := Advance(b);
      (r.x - b.x == 1 <==> b.movhor) && (r.x - b.x == -1 <==> !b.movhor) &&
      (r.y - b.y == 1 <==> b.movver) && (r.y - b.y == -1 <==> !b.movver)
  {
  }

  /** On rows 2 and above the ball turns down; it scores for player 1 exactly when it is
      more than two columns from the centre of p2's pad, and then restarts from the
      centre; on the pad it goes away from the pad's centre. */
  lemma TopRowScoring(b: Ball, p1: Pad, p2: Pad, winWidth: int, winHeight: int)
    requires b.y <= 2
    ensures var r := Deflected(b, p1, p2, winWidth, winHeight);
      r.0.movver &&
      (r.1 == Player1 <==> b.x < p2.x - PAD_WIDTH_HALF || b.x > p2.x + PAD_WIDTH_HALF) &&
      r.1 != Player2 &&
      (r.1 == Player1 ==> r.0 == Centred(r.0, winWidth, winHeight)) &&
      (p2.x - PAD_WIDTH_HALF <= b.x < p2.x ==> !r.0.movhor) &&
      (p2.x < b.x <= p2.x + PAD_WIDTH_HALF ==> r.0.movhor)
  {
  }

  /** The bottom edge, symmetric: rows `winHeight - 2` and below (but not the top rows)
      turn the ball up and score for player 2 when p1's pad misses. */
  lemma BottomRowScoring(b: Ball, p1: Pad, p2: Pad, winWidth: int, winHeight: int)
    requires 2 < b.y && b.y >= winHeight - 2
    ensures var r := Deflected(b, p1, p2, winWidth, winHeight);
      !r.0.movver &&
      (r.1 == Player2 <==> b.x < p1.x - PAD_WIDTH_HALF || b.x > p1.x + PAD_WIDTH_HALF) &&
      r.1 != Player1 &&
      (r.1 == Player2 ==> r.0 == Centred(r.0, winWidth, winHeight)) &&
      (p1.x - PAD_WIDTH_HALF <= b.x < p1.x ==> !r.0.movhor) &&
      (p1.x < b.x <= p1.x + PAD_WIDTH_HALF ==> r.0.movhor)
  {
  }

  /** Between the pad rows only the side walls act and nobody scores. */
  lemma MiddleRowsNoScore(b: Ball, p1: Pad, p2: Pad, winWidth: int, winHeight: int)
    requires 2 < b.y < winHeight - 2
    ensures Deflected(b, p1, p2, winWidth, winHeight) == (WallBounce(b, winWidth), Nobody)
  {
  }

  /** On a field at least six rows high the ball never leaves rows 2 to `winHeight - 2`. */
  lemma BallStaysBetweenPadRows(b: Ball, p1: Pad, p2: Pad, winWidth: int, winHeight: int)
    requires 6 <= winHeight <= 32767
    requires 2 <= b.y <= winHeight - 2
    ensures 2 <= Advance(Deflected(b, p1, p2, winWidth, winHeight).0).y <= winHeight - 2
  {
    var r := Deflected(b, p1, p2, winWidth, winHeight);
    var half := TruncDiv(winHeight, 2);
    assert 3 <= half <= winHeight - 3;
    if b.y <= 2 {
      TopRowScoring(b, p1, p2, winWidth, winHeight);
    } else if b.y >= winHeight - 2 {
      BottomRowScoring(b, p1, p2, winWidth, winHeight);
    }
  }

  /** A pad's deflection overrides the wall bounce, so the ball can cross a side wall: at
      column 1 of the top row, next to p2's pad centred at column 3, the wall turns the
      ball right, the pad turns it left again, and the step takes it to column 0. */
  lemma BallCanCrossSideWall()
    ensures var b := Ball(1, 2, false, false);
      Advance(Deflected(b, Pad(10, 19, 0), Pad(3, 1, 0), 20, 20).0).x == 0
  {
  }

  // ---------------------------------------------------------------------------
  // Payloads

  /** The low and high byte of `v` as `(v >> 0) & 0xFF` and `(v >> 8) & 0xFF` give them on
      two's-complement `int`. */
  function Encode16(v: int): (bytes: seq<uint8>)
    ensures |bytes| == 2
  {
    [v % 256, (v / 256) % 256]
  }

  /** `lo | (hi << 8)` */
  function Decode16(lo: uint8, hi: uint8): (v: int)
    ensures 0 <= v < 65536
  {
    lo + hi * 256
  }

  /** The two bytes keep `v` modulo 2^16. */
  lemma Decode16Encode16(v: int)
    ensures Decode16(Encode16(v)[0], Encode16(v)[1]) == v % 65536
  {
    var q := v / 256;
    var lo, hi := v % 256, q % 256;
    assert v == 256 * q + lo;
    assert q == 256 * (q / 256) + hi;
    assert v == lo + 256 * hi + 65536 * (q / 256);
    assert 0 <= lo + hi * 256 < 65536;
  }

  /** Any `short` survives encoding, decoding and narrowing back to `short`. */
  lemma Int16RoundTrip(v: int16)
    ensures ToInt16(Decode16(Encode16(v)[0], Encode16(v)[1])) == v
  {
    Decode16Encode16(v);
    var d := v % 65536;
    assert d == v || d == v + 65536;
  }

  /** The direction-flag byte `movhor & 0x0F | (movver << 4) & 0xF0`. */
  function Flags(movhor: bool, movver: bool): (f: uint8)
    ensures f % 16 != 0 <==> movhor
    ensures f >= 16 <==> movver
  {
    (if movhor then 1 else 0) + (if movver then 16 else 0)
  }

  function Packet(msgId: int, data: seq<uint8>): (p: MsgPacket)
    requires 0 <= msgId < 256 && |data| < 256
    ensures p.msgId == msgId && p.msgLen == |data| && p.msgData == Some(data)
    ensures Sendable(p) && |p.msgData.value| == p.msgLen
  {
    MsgPacket(msgId, |data|, Some(data))
  }

  /** Payload bytes `pingpong_recv_msg` reads for each id. */
  function NeededBytes(msgId: int): nat
  {
    if msgId == MSG_ID_WIN_SIZE then 4
    else if msgId == MSG_ID_PAD_POS then 2
    else if msgId == MSG_ID_BALL_POS then 5
    else if msgId == MSG_ID_GAME_STATUS then 2
    else 0
  }

  /** The packet holds every payload byte the receiver reads for its id. */
  predicate WellSized(p: MsgPacket)
  {
    NeededBytes(p.msgId) == 0 || (p.msgData.Some? && |p.msgData.value| >= NeededBytes(p.msgId))
  }

  /** `pingpong_send_msg`: the packet sent for `msgId`, or `None` (return code -1, nothing
      sent) for an unknown id. The one SYNC byte is never written by the sender, so its
      value is the parameter `syncByte`. */
  function EncodeMsg(msgId: int, termWin: WindowInfo, ball: Ball, p1: Pad, p2: Pad, syncByte: uint8): (r: Option<MsgPacket>)
    ensures r.None? <==> !(MSG_ID_SYNC <= msgId <= MSG_ID_GAME_STATUS)
    ensures r.Some? ==> r.value.msgId == msgId && Sendable(r.value) && WellSized(r.value)
  {
    if msgId == MSG_ID_WIN_SIZE then
      Some(Packet(msgId, Encode16(termWin.width) + Encode16(termWin.height)))
    else if msgId == MSG_ID_PAD_POS then
      Some(Packet(msgId, Encode16(p1.x)))
    else if msgId == MSG_ID_BALL_POS then
      Some(Packet(msgId, Encode16(ball.x) + Encode16(ball.y) + [Flags(ball.movhor, ball.movver)]))
    else if msgId == MSG_ID_GAME_STATUS then
      Some(Packet(msgId, [p1.wins, p2.wins]))
    else if msgId == MSG_ID_SYNC then
      Some(Packet(msgId, [syncByte]))
    else
      None
  }

  /** What a received packet does to the receiver's state. */
  datatype Update =
    | OppWindow(win: WindowInfo)
    | OppPadX(x: int16)
    | BallState(ball: Ball)
    | Scores(p1Wins: uint8, p2Wins: uint8)
    | NoUpdate
    | Unknown

  /** `pingpong_recv_msg` on a dequeued packet: window sizes reassembled little-endian,
      the opponent's pad and the ball mirrored into the receiver's view, the scores
      swapped; SYNC changes nothing and an unknown id is refused. */
  function DecodeMsg(p: MsgPacket, winWidth: int, winHeight: int): (u: Update)
    requires WellSized(p)
    ensures u.Unknown? <==> !(MSG_ID_SYNC <= p.msgId <= MSG_ID_GAME_STATUS)
  {
    if p.msgId == MSG_ID_WIN_SIZE then
      var d := p.msgData.value;
      OppWindow(WindowInfo(Decode16(d[0], d[1]), Decode16(d[2], d[3])))
    else if p.msgId == MSG_ID_PAD_POS then
      var d := p.msgData.value;
      OppPadX(ToInt16(winWidth - ToInt16(Decode16(d[0], d[1]))))
    else if p.msgId == MSG_ID_BALL_POS then
      var d := p.msgData.value;
      BallState(Ball(ToInt16(winWidth - ToInt16(Decode16(d[0], d[1]))),
                     ToInt16(winHeight - ToInt16(Decode16(d[2], d[3]))),
                     d[4] % 16 == 0, d[4] < 16))
    else if p.msgId == MSG_ID_GAME_STATUS then
      var d := p.msgData.value;
      Scores(d[1], d[0])
    else if p.msgId == MSG_ID_SYNC then
      NoUpdate
    else
      Unknown
  }

  /** The ball as the opponent sees it: the field turned half a turn. */
  function Mirror(b: Ball, winWidth: int, winHeight: int): (r: Ball)
    ensures r.movhor == !b.movhor && r.movver == !b.movver
    ensures (r.x + b.x - winWidth) % 65536 == 0 && (r.y + b.y - winHeight) % 65536 == 0
  {
    Ball(ToInt16(winWidth - b.x), ToInt16(winHeight - b.y), !b.movhor, !b.movver)
  }

  /** Mirroring twice gives the ball back while the mirrored coordinates fit in a `short`. */
  lemma MirrorInvolution(b: Ball, winWidth: int, winHeight: int)
    requires -32768 <= winWidth - b.x < 32768 && -32768 <= winHeight - b.y < 32768
    ensures Mirror(Mirror(b, winWidth, winHeight), winWidth, winHeight) == b
  {
  }

  /** Sizes from 0 to 65535 arrive unchanged. */
  lemma WinSizeRoundTrip(termWin: WindowInfo, ball: Ball, p1: Pad, p2: Pad, s: uint8, winWidth: int, winHeight: int)
    requires 0 <= termWin.width < 65536 && 0 <= termWin.height < 65536
    ensures DecodeMsg(EncodeMsg(MSG_ID_WIN_SIZE, termWin, ball, p1, p2, s).value, winWidth, winHeight) == OppWindow(termWin)
  {
    var w, h := Encode16(termWin.width), Encode16(termWin.height);
    var p := EncodeMsg(MSG_ID_WIN_SIZE, termWin, ball, p1, p2, s).value;
    assert p == Packet(MSG_ID_WIN_SIZE, w + h);
    var d := p.msgData.value;
    assert d[0] == w[0] && d[1] == w[1] && d[2] == h[0] && d[3] == h[1];
    Decode16Encode16(termWin.width);
    Decode16Encode16(termWin.height);
    assert Decode16(d[0], d[1]) == termWin.width && Decode16(d[2], d[3]) == termWin.height;
  }

  /** The receiver places the sender's pad at the mirrored column. */
  lemma PadPosIsMirrored(termWin: WindowInfo, ball: Ball, p1: Pad, p2: Pad, s: uint8, winWidth: int, winHeight: int)
    ensures DecodeMsg(EncodeMsg(MSG_ID_PAD_POS, termWin, ball, p1, p2, s).value, winWidth, winHeight) ==
            OppPadX(ToInt16(winWidth - p1.x))
  {
    Int16RoundTrip(p1.x);
  }

  /** The receiver's ball is the sender's ball mirrored, directions negated. */
  lemma BallPosIsMirrored(termWin: WindowInfo, ball: Ball, p1: Pad, p2: Pad, s: uint8, winWidth: int, winHeight: int)
    ensures DecodeMsg(EncodeMsg(MSG_ID_BALL_POS, termWin, ball, p1, p2, s).value, winWidth, winHeight) ==
            BallState(Mirror(ball, winWidth, winHeight))
  {
    Int16RoundTrip(ball.x);
    Int16RoundTrip(ball.y);
    var d := EncodeMsg(MSG_ID_BALL_POS, termWin, ball, p1, p2, s).value.msgData.value;
    assert d[0] == Encode16(ball.x)[0] && d[1] == Encode16(ball.x)[1];
    assert d[2] == Encode16(ball.y)[0] && d[3] == Encode16(ball.y)[1];
    assert d[4] == Flags(ball.movhor, ball.movver);
  }

  /** The receiver's own score is the sender's opponent score, and the other way round. */
  lemma GameStatusIsSwapped(termWin: WindowInfo, ball: Ball, p1: Pad, p2: Pad, s: uint8, winWidth: int, winHeight: int)
    ensures DecodeMsg(EncodeMsg(MSG_ID_GAME_STATUS, termWin, ball, p1, p2, s).value, winWidth, winHeight) ==
            Scores(p2.wins, p1.wins)
  {
  }

  /** The messages the server sends when a round starts. */
  function RoundMsgs(termWin: WindowInfo, ball: Ball, p1: Pad, p2: Pad, syncByte: uint8): (ms: seq<MsgPacket>)
    ensures |ms| == 3 && ms[0].msgId == MSG_ID_BALL_POS && ms[1].msgId == MSG_ID_GAME_STATUS && ms[2].msgId == MSG_ID_SYNC
  {
    [EncodeMsg(MSG_ID_BALL_POS, termWin, ball, p1, p2, syncByte).value,
     EncodeMsg(MSG_ID_GAME_STATUS, termWin, ball, p1, p2, syncByte).value,
     EncodeMsg(MSG_ID_SYNC, termWin, ball, p1, p2, syncByte).value]
  }

  // ---------------------------------------------------------------------------
  // The game state

  class Game {
    var isServer: bool
    var winWidth: int
    var winHeight: int
    var termWin: WindowInfo
    var oppWin: WindowInfo
    var ball: Ball
    var p1: Pad
    var p2: Pad

    /** The zero-initialised globals, with the role and terminal size set up by `main`
        and `pingpong_init`. */
    constructor (isServer: bool, termWin: WindowInfo)
      ensures this.isServer == isServer && this.termWin == termWin
      ensures winWidth == 0 && winHeight == 0 && oppWin == WindowInfo(0, 0)
      ensures ball == Ball(0, 0, false, false) && p1 == Pad(0, 0, 0) && p2 == Pad(0, 0, 0)
    {
      this.isServer, this.termWin := isServer, termWin;
      winWidth, winHeight, oppWin := 0, 0, WindowInfo(0, 0);
      ball, p1, p2 := Ball(0, 0, false, false), Pad(0, 0, 0), Pad(0, 0, 0);
    }

    /** The window-size step of `pingpong_init`, once the opponent's size has arrived. */
    method SetPlayArea()
      modifies this`winWidth, this`winHeight
      ensures WindowInfo(winWidth, winHeight) == PlayArea(termWin, oppWin)
    {
      if termWin.width <= oppWin.width {
        winWidth := termWin.width;
      } else {
        winWidth := oppWin.width;
      }
      if termWin.height <= oppWin.height {
        winHeight := termWin.height;
      } else {
        winHeight := oppWin.height;
      }
    }

    /** `pingpong_new_round`: re-centre the ball; the server then sends the ball, the
        scores and a SYNC. The client's wait for SYNC is not part of this model. */
    method NewRound(syncByte: uint8) returns (sent: seq<MsgPacket>)
      modifies this`ball
      ensures ball == Centred(old(ball), winWidth, winHeight)
      ensures sent == if isServer then RoundMsgs(termWin, ball, p1, p2, syncByte) else []
    {
      ball := ball.(x := ToInt16(TruncDiv(winWidth, 2)));
      ball := ball.(y := ToInt16(TruncDiv(winHeight, 2)));
      sent := [];
      if isServer {
        sent := sent + [EncodeMsg(MSG_ID_BALL_POS, termWin, ball, p1, p2, syncByte).value];
        sent := sent + [EncodeMsg(MSG_ID_GAME_STATUS, termWin, ball, p1, p2, syncByte).value];
        sent := sent + [EncodeMsg(MSG_ID_SYNC, termWin, ball, p1, p2, syncByte).value];
      }
    }

    /** `pingpong_new_game`: the ball centred and heading right (its vertical direction
        is left as it was), both pads centred on rows `winHeight - 1` and 1, scores 0,
        then a new round. */
    method NewGame(syncByte: uint8) returns (sent: seq<MsgPacket>)
      modifies this`ball, this`p1, this`p2
      ensures ball == Centred(old(ball).(movhor := true), winWidth, winHeight)
      ensures p1 == Pad(ToInt16(TruncDiv(winWidth, 2)), ToInt16(winHeight - 1), 0)
      ensures p2 == Pad(ToInt16(TruncDiv(winWidth, 2)), 1, 0)
      ensures sent == if isServer then RoundMsgs(termWin, ball, p1, p2, syncByte) else []
    {
      ball := ball.(x := ToInt16(TruncDiv(winWidth, 2)));
      ball := ball.(y := ToInt16(TruncDiv(winHeight, 2)));
      ball := ball.(movhor := false);
      ball := ball.(movhor := true);
      p1 := p1.(x := ToInt16(TruncDiv(winWidth, 2)));
      p1 := p1.(y := ToInt16(winHeight - 1));
      p1 := p1.(wins := 0);
      p2 := p2.(x := ToInt16(TruncDiv(winWidth, 2)));
      p2 := p2.(y := 1);
      p2 := p2.(wins := 0);
      sent := NewRound(syncByte);
    }

    /** `pingpong_pad_mov` on the local pad, which then sends its position. */
    method PadMov(dir: MovDir) returns (sent: MsgPacket)
      modifies this`p1
      ensures p1 == PadMoved(old(p1), dir, winWidth)
      ensures sent == EncodeMsg(MSG_ID_PAD_POS, termWin, ball, p1, p2, 0).value
    {
      if p1.x > PAD_WIDTH_HALF && dir == MovLeft {
        p1 := p1.(x := ToInt16(p1.x - 1));
      }
      if p1.x < winWidth - PAD_WIDTH_HALF - 1 && dir == MovRight {
        p1 := p1.(x := ToInt16(p1.x + 1));
      }
      sent := EncodeMsg(MSG_ID_PAD_POS, termWin, ball, p1, p2, 0).value;
    }

    /** `pingpong_ball_mov`: wall bounce, pad contact or score on the pad rows (a score
        starts a new round), then one step. */
    method BallMov(syncByte: uint8) returns (sent: seq<MsgPacket>)
      modifies this`ball, this`p1, this`p2
      ensures var r := Deflected(old(ball), old(p1), old(p2), winWidth, winHeight);
        ball == Advance(r.0) &&
        p1 == old(p1).(wins := WinsAfter(old(p1).wins, r.1, Player1)) &&
        p2 == old(p2).(wins := WinsAfter(old(p2).wins, r.1, Player2)) &&
        sent == if r.1 != Nobody && isServer then RoundMsgs(termWin, r.0, p1, p2, syncByte) else []
    {
      if ball.x == winWidth - 1 || ball.x == 1 {
        ball := ball.(movhor := !ball.movhor);
      }
      sent := PadRows(syncByte);
      ball := ball.(x := ToInt16(if ball.movhor then ball.x + 1 else ball.x - 1));
      ball := ball.(y := ToInt16(if ball.movver then ball.y + 1 else ball.y - 1));
    }

    /** The pad-row part of `pingpong_ball_mov`. */
    method PadRows(syncByte: uint8) returns (sent: seq<MsgPacket>)
      modifies this`ball, this`p1, this`p2
      ensures var r := OnPadRows(old(ball), old(p1), old(p2), winWidth, winHeight);
        ball == r.0 &&
        p1 == old(p1).(wins := WinsAfter(old(p1).wins, r.1, Player1)) &&
        p2 == old(p2).(wins := WinsAfter(old(p2).wins, r.1, Player2)) &&
        sent == if r.1 != Nobody && isServer then RoundMsgs(termWin, r.0, p1, p2, syncByte) else []
    {
      sent := [];
      if ball.y <= 2 {
        ball := ball.(movver := true);
        if ball.x == p2.x - PAD_WIDTH_HALF || ball.x == p2.x - PAD_WIDTH_HALF + 1 {
          ball := ball.(movhor := false);
        } else if ball.x == p2.x + PAD_WIDTH_HALF || ball.x == p2.x + PAD_WIDTH_HALF - 1 {
          ball := ball.(movhor := true);
        } else if ball.x != p2.x {
          p1 := p1.(wins := IncUint8(p1.wins));
          sent := NewRound(syncByte);
        }
      } else if ball.y >= winHeight - 2 {
        ball := ball.(movver := false);
        if ball.x == p1.x - PAD_WIDTH_HALF || ball.x == p1.x - PAD_WIDTH_HALF + 1 {
          ball := ball.(movhor := false);
        } else if ball.x == p1.x + PAD_WIDTH_HALF || ball.x == p1.x + PAD_WIDTH_HALF - 1 {
          ball := ball.(movhor := true);
        } else if ball.x != p1.x {
          p2 := p2.(wins := IncUint8(p2.wins));
          sent := NewRound(syncByte);
        }
      }
    }

    /** `pingpong_recv_msg` on the outcome of `tcpipc_recv`: -1 for an empty queue or an
        unknown id, else the id, with the state updated as `DecodeMsg` says. */
    method RecvMsg(msg: Option<MsgPacket>) returns (r: int)
      requires msg.Some? ==> WellSized(msg.value)
      modifies this`oppWin, this`ball, this`p1, this`p2
      ensures r == if msg.None? || DecodeMsg(msg.value, winWidth, winHeight).Unknown? then -1 else msg.value.msgId
      ensures var u := if msg.None? then NoUpdate else DecodeMsg(msg.value, winWidth, winHeight);
        oppWin == (if u.OppWindow? then u.win else old(oppWin)) &&
        ball == (if u.BallState? then u.ball else old(ball)) &&
        p1 == (if u.Scores? then old(p1).(wins := u.p1Wins) else old(p1)) &&
        p2 == (if u.OppPadX? then old(p2).(x := u.x)
               else if u.Scores? then old(p2).(wins := u.p2Wins) else old(p2))
    {
      if msg.None? {
        return -1;
      }
      var p := msg.value;
      if p.msgId == MSG_ID_WIN_SIZE {
        var d := p.msgData.value;
        oppWin := oppWin.(width := d[0] as int + d[1] as int * 256);
        oppWin := oppWin.(height := d[2] as int + d[3] as int * 256);
      } else if p.msgId == MSG_ID_PAD_POS {
        var d := p.msgData.value;
        p2 := p2.(x := ToInt16(d[0] as int + d[1] as int * 256));
        p2 := p2.(x := ToInt16(winWidth - p2.x));
      } else if p.msgId == MSG_ID_BALL_POS {
        var d := p.msgData.value;
        ball := ball.(x := ToInt16(d[0] as int + d[1] as int * 256));
        ball := ball.(x := ToInt16(winWidth - ball.x));
        ball := ball.(y := ToInt16(d[2] as int + d[3] as int * 256));
        ball := ball.(y := ToInt16(winHeight - ball.y));
        ball := ball.(movhor := !(d[4] % 16 != 0));
        ball := ball.(movver := !(d[4] >= 16));
      } else if p.msgId == MSG_ID_GAME_STATUS {
        var d := p.msgData.value;
        p2 := p2.(wins := d[0]);
        p1 := p1.(wins := d[1]);
      } else if p.msgId == MSG_ID_SYNC {
      } else {
        return -1;
      }
      return p.msgId;
    }
  }
}
