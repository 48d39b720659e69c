/** The older single-machine pong of the ping-pong application. Its ball follows the same
    wall bounce, re-centring and one-cell step as the networked game, but a pad only
    catches the ball at column `pad.x` and the column either side of it, pads stop at
    column 1 and column `winWidth - 6`, and scores are `short` counters. Column `pad.x`
    is the pad's left end as drawn (the pad covers `pad.x` to `pad.x + 4`), so the hit
    zone is offset from the drawn pad: it is the column left of the pad and the pad's
    first two cells, and a ball over the drawn centre `pad.x + 2` scores. The ball and
    the pads are objects changed through pointers; the window size is read from globals,
    here parameters. */
module PongLocal {
  import opened CTypes
  import opened PingPong

  /** `PAD_WIDTH` of the local game. */
  const PAD_WIDTH: int := 5

  class BallObj {
    var x: int16
    var y: int16
    var movhor: bool
    var movver: bool

    /** A `ball_obj_t` local, holding whatever it holds before `pong_init`. */
    constructor (x: int16, y: int16, movhor: bool, movver: bool)
      ensures State() == Ball(x, y, movhor, movver)
    {
      this.x, this.y, this.movhor, this.movver := x, y, movhor, movver;
    }

    function State(): Ball
      reads this
    {
      Ball(x, y, movhor, movver)
    }
  }

  class PadObj {
    var x: int16
    var y: int16
    var lost: bool
    var wins: int16

    /** A `pad_obj_t` local, holding whatever it holds before `pong_init`. */
    constructor (x: int16, y: int16, lost: bool, wins: int16)
      ensures this.x == x && this.y == y && this.lost == lost && this.wins == wins
    {
      this.x, this.y, this.lost, this.wins := x, y, lost, wins;
    }
  }

  /** The ball on a pad's row: column `padX - 1` sends it left, column `padX + 1` sends
      it right, column `padX` (the pad's left end) leaves it, and any other column is a
      miss, which re-centres the ball (`true` in the second component). */
  function LocalContact(b: Ball, padX: int, winWidth: int, winHeight: int): (r: (Ball, bool))
    ensures r.1 <==> b.x < padX - 1 || b.x > padX + 1
    ensures r.1 ==> r.0 == Centred(b, winWidth, winHeight)
    ensures !r.1 ==> r.0.x == b.x && r.0.y == b.y && r.0.movver == b.movver
  {
    if b.x == padX - 1 then (b.(movhor := false), false)
    else if b.x == padX + 1 then (b.(movhor := true), false)
    else if b.x != padX then (Centred(b, winWidth, winHeight), true)
    else (b, false)
  }

  /** The ball as `pong_ball_pos_update` leaves it before its final step, and who scored. */
  function LocalDeflected(b: Ball, p1x: int, p2x: int, winWidth: int, winHeight: int): (r: (Ball, Scorer))
    ensures r.1 == Nobody ==> r.0.x == b.x && r.0.y == b.y
    ensures r.1 != Nobody ==> r.0.x == ToInt16(TruncDiv(winWidth, 2)) && r.0.y == ToInt16(TruncDiv(winHeight, 2))
  {
    LocalOnPadRows(WallBounce(b, winWidth), p1x, p2x, winWidth, winHeight)
  }

  /** The pad rows' part of `LocalDeflected`. */
  function LocalOnPadRows(b1: Ball, p1x: int, p2x: int, winWidth: int, winHeight: int): (r: (Ball, Scorer))
    ensures r.1 == Player1 ==> b1.y <= 2
    ensures r.1 == Player2 ==> 2 < b1.y && b1.y >= winHeight - 2
    ensures 2 < b1.y < winHeight - 2 ==> r == (b1, Nobody)
  {
    if b1.y <= 2 then
      var c := LocalContact(b1.(movver := true), p2x, winWidth, winHeight);
      (c.0, if c.1 then Player1 else Nobody)
    else if b1.y >= winHeight - 2 then
      var c := LocalContact(b1.(movver := false), p1x, winWidth, winHeight);
      (c.0, if c.1 then Player2 else Nobody)
    else
      (b1, Nobody)
  }

  /** `pong_pad_mov` on a column: left while right of column 1, right while left of
      column `winWidth - PAD_WIDTH - 1`. */
  function LocalPadMoved(x: int16, dir: MovDir, winWidth: int): (r: int16)
    ensures dir == MovNone ==> r == x
    ensures dir == MovLeft ==> r == x || (r == x - 1 && x > 1)
    ensures dir == MovRight && x < 32767 ==> r == x || (r == x + 1 && x < winWidth - PAD_WIDTH - 1)
  {
    var x1 := if x > 1 && dir == MovLeft then ToInt16(x - 1) else x;
    if x1 < winWidth - PAD_WIDTH - 1 && dir == MovRight then ToInt16(x1 + 1) else x1
  }

  /** A pad whose five drawn cells lie in columns 1 to `winWidth - 2` keeps them there and
      moves by at most one column, exactly when the direction and the edge allow it. */
  lemma LocalPadStaysOnBoard(x: int16, dir: MovDir, winWidth: int)
    requires winWidth <= 32773
    requires 1 <= x <= winWidth - PAD_WIDTH - 1
    ensures var r := LocalPadMoved(x, dir, winWidth);
      1 <= r <= winWidth - PAD_WIDTH - 1 &&
      (r == x - 1 <==> dir == MovLeft && x > 1) &&
      (r == x + 1 <==> dir == MovRight && x < winWidth - PAD_WIDTH - 1) &&
      (r == x <==> !(r == x - 1 || r == x + 1))
  {
  }

  /** On rows 2 and above the ball turns down and scores for player 1 exactly when it is
      more than one column from column `p2x`, p2's left end; the columns either side of
      `p2x` send it away from `p2x`. */
  lemma LocalTopRowScoring(b: Ball, p1x: int, p2x: int, winWidth: int, winHeight: int)
    requires b.y <= 2
    ensures var r := LocalDeflected(b, p1x, p2x, winWidth, winHeight);
      r.0.movver &&
      (r.1 == Player1 <==> b.x < p2x - 1 || b.x > p2x + 1) &&
      r.1 != Player2 &&
      (r.1 == Player1 ==> r.0 == Centred(r.0, winWidth, winHeight)) &&
      (b.x == p2x - 1 ==> !r.0.movhor) && (b.x == p2x + 1 ==> r.0.movhor)
  {
  }

  /** The bottom edge, symmetric, for p1's pad and player 2's score. */
  lemma LocalBottomRowScoring(b: Ball, p1x: int, p2x: int, winWidth: int, winHeight: int)
    requires 2 < b.y && b.y >= winHeight - 2
    ensures var r := LocalDeflected(b, p1x, p2x, winWidth, winHeight);
      !r.0.movver &&
      (r.1 == Player2 <==> b.x < p1x - 1 || b.x > p1x + 1) &&
      r.1 != Player1 &&
      (r.1 == Player2 ==> r.0 == Centred(r.0, winWidth, winHeight)) &&
      (b.x == p1x - 1 ==> !r.0.movhor) && (b.x == p1x + 1 ==> r.0.movhor)
  {
  }

  /** For the same pad columns, the local game's three-column zone misses every ball the
      networked game's five-column zone misses, and more: the two games agree except
      where the ball is two columns from `pad.x`, where only the local game scores.
      (`pad.x` is the centre of the networked pad but the left end of the local one.) */
  lemma LocalZoneIsNarrower(b: Ball, p1: Pad, p2: Pad, winWidth: int, winHeight: int)
    ensures var net := Deflected(b, p1, p2, winWidth, winHeight);
            var loc := LocalDeflected(b, p1.x, p2.x, winWidth, winHeight);
      (net.1 != Nobody ==> loc == net) &&
      (loc.1 == net.1 ==> loc == net) &&
      (loc.1 != net.1 ==>
         net.1 == Nobody &&
         ((b.y <= 2 && (b.x == p2.x - 2 || b.x == p2.x + 2)) ||
          (2 < b.y && b.y >= winHeight - 2 && (b.x == p1.x - 2 || b.x == p1.x + 2))))
  {
    var b1 := WallBounce(b, winWidth);
    if b1.y <= 2 {
      TopRowScoring(b, p1, p2, winWidth, winHeight);
      LocalTopRowScoring(b, p1.x, p2.x, winWidth, winHeight);
    } else if b1.y >= winHeight - 2 {
      BottomRowScoring(b, p1, p2, winWidth, winHeight);
      LocalBottomRowScoring(b, p1.x, p2.x, winWidth, winHeight);
    }
  }

  /** `pong_init`: the ball centred and heading left (its vertical direction is left as
      it was), both pads at column `winWidth / 2` on rows `winHeight - 1` and 1, so they
      extend to the right of the middle, not lost, no wins. */
  method PongInit(ball: BallObj, p1: PadObj, p2: PadObj, winWidth: int, winHeight: int)
    requires p1 != p2
    modifies ball, p1, p2
    ensures ball.State() == Centred(old(ball.State()).(movhor := false), winWidth, winHeight)
    ensures p1.x == ToInt16(TruncDiv(winWidth, 2)) && p1.y == ToInt16(winHeight - 1) && !p1.lost && p1.wins == 0
    ensures p2.x == ToInt16(TruncDiv(winWidth, 2)) && p2.y == 1 && !p2.lost && p2.wins == 0
  {
    ball.x := ToInt16(TruncDiv(winWidth, 2));
    ball.y := ToInt16(TruncDiv(winHeight, 2));
    ball.movhor := false;
    ball.movhor := false;

    p1.x := ToInt16(TruncDiv(winWidth, 2));
    p1.y := ToInt16(winHeight - 1);
    p1.lost := false;
    p1.wins := 0;

    p2.x := ToInt16(TruncDiv(winWidth, 2));
    p2.y := 1;
    p2.lost := false;
    p2.wins := 0;
  }

  /** `pong_pad_mov` */
  method PongPadMov(pad: PadObj, dir: MovDir, winWidth: int)
    modifies pad`x
    ensures pad.x == LocalPadMoved(old(pad.x), dir, winWidth)
  {
    if pad.x > 1 && dir == MovLeft {
      pad.x := ToInt16(pad.x - 1);
    }
    if pad.x < winWidth - PAD_WIDTH - 1 && dir == MovRight {
      pad.x := ToInt16(pad.x + 1);
    }
  }

  /** `pong_ball_pos_update`: wall bounce, pad contact or score on the pad rows (a score
      re-centres the ball), then one step. */
  method PongBallPosUpdate(ball: BallObj, p1: PadObj, p2: PadObj, winWidth: int, winHeight: int)
    requires p1 != p2
    modifies ball, p1`wins, p2`wins
    ensures var r := LocalDeflected(old(ball.State()), old(p1.x), old(p2.x), winWidth, winHeight);
      ball.State() == Advance(r.0) &&
      p1.wins == (if r.1 == Player1 then ToInt16(old(p1.wins) + 1) else old(p1.wins)) &&
      p2.wins == (if r.1 == Player2 then ToInt16(old(p2.wins) + 1) else old(p2.wins))
  {
    if ball.x == winWidth - 1 || ball.x == 1 {
      ball.movhor := !ball.movhor;
    }
    PadRows(ball, p1, p2, winWidth, winHeight);
    ball.x := ToInt16(if ball.movhor then ball.x + 1 else ball.x - 1);
    ball.y := ToInt16(if ball.movver then ball.y + 1 else ball.y - 1);
  }

  /** The pad-row part of `pong_ball_pos_update`. */
  method PadRows(ball: BallObj, p1: PadObj, p2: PadObj, winWidth: int, winHeight: int)
    requires p1 != p2
    modifies ball, p1`wins, p2`wins
    ensures var r := LocalOnPadRows(old(ball.State()), old(p1.x), old(p2.x), winWidth, winHeight);
      ball.State() == r.0 &&
      p1.wins == (if r.1 == Player1 then ToInt16(old(p1.wins) + 1) else old(p1.wins)) &&
      p2.wins == (if r.1 == Player2 then ToInt16(old(p2.wins) + 1) else old(p2.wins))
  {
    if ball.y <= 2 {
      ball.movver := true;
      if ball.x == p2.x - 1 {
        ball.movhor := false;
      } else if ball.x == p2.x + 1 {
        ball.movhor := true;
      } else if ball.x != p2.x {
        p1.wins := ToInt16(p1.wins + 1);
        ball.x := ToInt16(TruncDiv(winWidth, 2));
        ball.y := ToInt16(TruncDiv(winHeight, 2));
      }
    } else if ball.y >= winHeight - 2 {
      ball.movver := false;
      if ball.x == p1.x - 1 {
        ball.movhor := false;
      } else if ball.x == p1.x + 1 {
        ball.movhor := true;
      } else if ball.x != p1.x {
        p2.wins := ToInt16(p2.wins + 1);
        ball.x := ToInt16(TruncDiv(winWidth, 2));
        ball.y := ToInt16(TruncDiv(winHeight, 2));
      }
    }
  }
}
