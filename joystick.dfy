/** The joystick driver's user side: `joystick_read` selects the four ADS1115 input
    channels in turn, writing the channel's digit to the device and reading one 16-bit
    conversion back, and turns the four readings into a button state and two signed
    positions. The device's write and read results and the readings it delivers are
    parameters. */
module Joystick {
  import opened CTypes

  /** `JOYSTICK_X_DEF`, `JOYSTICK_Y_DEF`: the readings of a joystick at rest. */
  const JOYSTICK_X_DEF: int := 13500
  const JOYSTICK_Y_DEF: int := 13100
  /** `JOYSTICK_X_MAX`, `JOYSTICK_Y_MAX`: the reading span mapped onto 128 steps. */
  const JOYSTICK_X_MAX: int := 15000
  const JOYSTICK_Y_MAX: int := 15000

  /** The channels of the four conversions, in the order they are selected. */
  const CHANNELS: seq<char> := ['0', '1', '2', '3']

  /** Channel `i` is the digit of `i`, as `mux_select[0] += 1` steps it. */
  lemma ChannelDigits()
    ensures forall i :: 0 <= i < 4 ==> CHANNELS[i] as int == '0' as int + i
  {
  }

  /** `struct joystick_data_t` as `joystick_read` fills it. */
  datatype Reading = Reading(xPos: int8, yPos: int8, button: uint8)

  /** The button is pressed when channel 0 reads below 10. */
  function Button(ch0: uint16): (b: uint8)
    ensures b <= 1
    ensures b == 1 <==> ch0 < 10
  {
    if ch0 < 10 then 1 else 0
  }

  /** A position before narrowing: the distance from the rest reading scaled to
      128 steps per `span`, truncated toward zero. */
  function Scaled(rest: int, reading: uint16, span: int): int
    requires span > 0
  {
    TruncDiv((rest - reading) * 128, span)
  }

  /** The position stored into an `int8_t` field. */
  function Position(rest: int, reading: uint16, span: int): (p: int8)
    requires span > 0
    ensures (p - Scaled(rest, reading, span)) % 256 == 0
    ensures -128 <= Scaled(rest, reading, span) < 128 ==> p == Scaled(rest, reading, span)
  {
    ToInt8(Scaled(rest, reading, span))
  }

  /** The conversion of the four readings: button from channel 0, y from channel 2,
      x from channel 3; channel 1 is read but unused. */
  function Convert(data: seq<uint16>): (r: Reading)
    requires |data| == 4
    ensures r.button == 1 <==> data[0] < 10
    ensures data[3] == JOYSTICK_X_DEF ==> r.xPos == 0
    ensures data[2] == JOYSTICK_Y_DEF ==> r.yPos == 0
  {
    Reading(Position(JOYSTICK_X_DEF, data[3], JOYSTICK_X_MAX),
            Position(JOYSTICK_Y_DEF, data[2], JOYSTICK_Y_MAX),
            Button(data[0]))
  }

  /** The button is reported pressed exactly when channel 0 reads below 10, and the
      reading of channel 1 does not matter. */
  lemma ButtonIffLowReading(data: seq<uint16>, other: uint16)
    requires |data| == 4
    ensures Convert(data).button == 1 <==> data[0] < 10
    ensures Convert(data).button == 0 <==> data[0] >= 10
    ensures Convert(data[1 := other]) == Convert(data)
  {
  }

  /** A joystick at rest reads position 0 on both axes. */
  lemma RestIsCentre(data: seq<uint16>)
    requires |data| == 4 && data[2] == JOYSTICK_Y_DEF && data[3] == JOYSTICK_X_DEF
    ensures Convert(data).xPos == 0 && Convert(data).yPos == 0
  {
  }

  /** Up to 15117 counts above the rest reading, and at any reading below it, the scaled
      value fits `int8_t` and is stored unchanged; it lies between `-(d / 117)` and
      `-(d / 118)` for a distance `d` above rest, and is never above 115. */
  lemma {:induction false} PositionInRange(rest: int, reading: uint16)
    requires rest == JOYSTICK_X_DEF || rest == JOYSTICK_Y_DEF
    requires reading <= rest + 15117
    ensures -128 <= Scaled(rest, reading, 15000) <= 115
    ensures Position(rest, reading, 15000) == Scaled(rest, reading, 15000)
  {
    var a := (rest - reading) * 128;
    assert -15117 * 128 <= a <= 13500 * 128;
    var q := TruncDiv(a, 15000);
    if a >= 0 {
      assert q * 15000 <= 13500 * 128;
    } else {
      assert q * 15000 - 15000 < a;
    }
  }

  /** Moving the stick further from rest never moves the reported position back, as long
      as both readings stay in the range where nothing wraps. */
  lemma {:induction false} PositionMonotone(rest: int, r1: uint16, r2: uint16)
    requires rest == JOYSTICK_X_DEF || rest == JOYSTICK_Y_DEF
    requires r1 <= r2 <= rest + 15117
    ensures Position(rest, r2, 15000) <= Position(rest, r1, 15000)
  {
    PositionInRange(rest, r1);
    PositionInRange(rest, r2);
    TruncDivMonotone((rest - r2) * 128, (rest - r1) * 128, 15000);
  }

  /** C's truncating division keeps the order of its dividends. */
  lemma TruncDivMonotone(a: int, b: int, d: int)
    requires a <= b && d > 0
    ensures TruncDiv(a, d) <= TruncDiv(b, d)
  {
    var qa, qb := TruncDiv(a, d), TruncDiv(b, d);
    if a >= 0 {
      assert qa * d <= a;
      assert b < qb * d + d;
      assert qb * d + d == (qb + 1) * d;
      LessTimes(qa, qb + 1, d);
    } else if b >= 0 {
      assert qa <= 0;
      assert 0 <= qb;
    } else {
      assert qa * d - d < a;
      assert b <= qb * d;
      assert qa * d - d == (qa - 1) * d;
      LessTimes(qa - 1, qb, d);
    }
  }

  lemma LessTimes(x: int, y: int, d: int)
    requires d > 0 && x * d < y * d
    ensures x < y
  {
    assert (y - x) * d == y * d - x * d;
    assert (y - x) * d > 0;
  }

  /** One reading past the range flips the y position from its most negative value to
      its most positive one: channel 2 reading 28217 gives -128, 28218 gives 127. */
  lemma PositionWrapsPastRange()
    ensures Position(JOYSTICK_Y_DEF, 28217, JOYSTICK_Y_MAX) == -128
    ensures Position(JOYSTICK_Y_DEF, 28218, JOYSTICK_Y_MAX) == 127
  {
    assert TruncDiv((JOYSTICK_Y_DEF - 28217) * 128, 15000) == -128;
    assert TruncDiv((JOYSTICK_Y_DEF - 28218) * 128, 15000) == -129;
  }

  /** A step of the channel scan as the device sees it. */
  datatype DeviceOp = SelectChannel(ch: char) | ReadChannel(ch: char)

  /** The step of the scan that fails: the first channel whose write or read returns a
      negative code, or 4 when none does. */
  function FailedStep(writeResults: seq<int>, readResults: seq<int>): (k: nat)
    requires |writeResults| == 4 && |readResults| == 4
    ensures k <= 4
    ensures forall i :: 0 <= i < k ==> writeResults[i] >= 0 && readResults[i] >= 0
    ensures k < 4 ==> writeResults[k] < 0 || readResults[k] < 0
  {
    if writeResults[0] < 0 || readResults[0] < 0 then 0
    else if writeResults[1] < 0 || readResults[1] < 0 then 1
    else if writeResults[2] < 0 || readResults[2] < 0 then 2
    else if writeResults[3] < 0 || readResults[3] < 0 then 3
    else 4
  }

  /** What `joystick_read` returns: the failing write's or read's code, or after a
      complete scan the byte count of the last read. */
  function ScanResult(writeResults: seq<int>, readResults: seq<int>): (ret: int)
    requires |writeResults| == 4 && |readResults| == 4
    ensures ret < 0 <==> FailedStep(writeResults, readResults) < 4
    ensures FailedStep(writeResults, readResults) == 4 ==> ret == readResults[3]
  {
    var k := FailedStep(writeResults, readResults);
    if k == 4 then readResults[3] else if writeResults[k] < 0 then writeResults[k] else readResults[k]
  }

  /** The device operations of a scan of `k` complete steps followed, when `k < 4`, by
      the failed one. */
  function ScanTrace(writeResults: seq<int>, readResults: seq<int>): seq<DeviceOp>
    requires |writeResults| == 4 && |readResults| == 4
  {
    var k := FailedStep(writeResults, readResults);
    Steps(k) + (if k == 4 then []
                else if writeResults[k] < 0 then [SelectChannel(CHANNELS[k])]
                else [SelectChannel(CHANNELS[k]), ReadChannel(CHANNELS[k])])
  }

  /** `k` complete steps: select then read channel `i`, for `i` from 0. */
  function Steps(k: nat): (ops: seq<DeviceOp>)
    requires k <= 4
    ensures |ops| == 2 * k
    ensures forall i :: 0 <= i < k ==> ops[2 * i] == SelectChannel(CHANNELS[i]) && ops[2 * i + 1] == ReadChannel(CHANNELS[i])
  {
    if k == 0 then [] else Steps(k - 1) + [SelectChannel(CHANNELS[k - 1]), ReadChannel(CHANNELS[k - 1])]
  }

  /** The result is negative exactly when a write or a read failed, and a complete scan
      selects the four channels in order, each followed by its read. */
  lemma ScanOutcome(writeResults: seq<int>, readResults: seq<int>)
    requires |writeResults| == 4 && |readResults| == 4
    ensures ScanResult(writeResults, readResults) < 0 <==> FailedStep(writeResults, readResults) < 4
    ensures FailedStep(writeResults, readResults) == 4 ==>
      ScanTrace(writeResults, readResults) == [SelectChannel('0'), ReadChannel('0'), SelectChannel('1'), ReadChannel('1'),
                                   SelectChannel('2'), ReadChannel('2'), SelectChannel('3'), ReadChannel('3')]
  {
    if FailedStep(writeResults, readResults) == 4 {
      var t := ScanTrace(writeResults, readResults);
      assert t == Steps(4);
    }
  }

  /** The joystick's device file: `file_fd`. */
  class JoystickDevice {
    var fileFd: int

    constructor (fileFd: int)
      ensures this.fileFd == fileFd
    {
      this.fileFd := fileFd;
    }

    /** `joystick_close`: the descriptor is closed only when it is positive; it is not
        reset. */
    method Close() returns (closed: seq<int>)
      ensures fileFd > 0 ==> closed == [fileFd]
      ensures fileFd <= 0 ==> closed == []
    {
      closed := [];
      if fileFd > 0 {
        closed := [fileFd];
      }
    }

    /** `joystick_read`: `writeResults[i]` and `readResults[i]` are what the device returns for the
        write and the read of channel `i`, and `readings[i]` is what the read leaves in
        `ads1115_data[i]`. On success the data is the conversion of the four readings;
        on failure it is left alone. */
    method Read(data: JoystickData, writeResults: seq<int>, readResults: seq<int>, readings: seq<uint16>)
      returns (ret: int, ops: seq<DeviceOp>)
      requires |writeResults| == 4 && |readResults| == 4 && |readings| == 4
      modifies data
      ensures ret == ScanResult(writeResults, readResults)
      ensures ops == ScanTrace(writeResults, readResults)
      ensures ret >= 0 ==> data.State() == Convert(readings)
      ensures ret < 0 ==> data.State() == old(data.State())
    {
      var adsData := new uint16[4];
      var muxSelect := '0';
      var i := 0;
      ret := 0;
      ops := [];
      var failed := false;
      while i < 4 && !failed
        invariant 0 <= i <= 4
        invariant !failed ==> muxSelect as int == '0' as int + i
        invariant unchanged(data)
        invariant !failed ==> i <= FailedStep(writeResults, readResults) && ops == Steps(i) && ret >= 0
        invariant !failed ==> forall j :: 0 <= j < i ==> adsData[j] == readings[j]
        invariant !failed && i > 0 ==> ret == readResults[i - 1]
        invariant failed ==> 0 < i && FailedStep(writeResults, readResults) == i - 1
        invariant failed ==> ret < 0 && ret == ScanResult(writeResults, readResults)
        invariant failed ==> ops == ScanTrace(writeResults, readResults)
      {
        ChannelDigits();
        ret := writeResults[i];
        ops := ops + [SelectChannel(muxSelect)];
        if ret < 0 {
          failed := true;
        } else {
          ret := readResults[i];
          ops := ops + [ReadChannel(muxSelect)];
          if ret < 0 {
            failed := true;
          } else {
            adsData[i] := readings[i];
            muxSelect := (muxSelect as int + 1) as char;
          }
        }
        i := i + 1;
      }
      if ret >= 0 {
        assert adsData[..] == readings;
        data.button := Button(adsData[0]);
        data.yPos := Position(JOYSTICK_Y_DEF, adsData[2], JOYSTICK_Y_MAX);
        data.xPos := Position(JOYSTICK_X_DEF, adsData[3], JOYSTICK_X_MAX);
      }
    }
  }

  /** `struct joystick_data_t`, the caller's record `joystick_read` fills in. */
  class JoystickData {
    var xPos: int8
    var yPos: int8
    var button: uint8

    constructor (xPos: int8, yPos: int8, button: uint8)
      ensures State() == Reading(xPos, yPos, button)
    {
      this.xPos, this.yPos, this.button := xPos, yPos, button;
    }

    function State(): Reading
      reads this
    {
      Reading(xPos, yPos, button)
    }
  }
}
