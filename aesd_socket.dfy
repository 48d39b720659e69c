/** The socket server's request handling: `sock_read` gathers a client's bytes into a
    growing buffer one chunk at a time, keeping each chunk up to and including its first
    newline, and the connection handler reads chunks until a newline has arrived and then
    either passes the line on as data or parses an `AESDCHAR_IOCSEEKTO:X,Y` seek command,
    cutting the two numbers out with NUL bytes written into the buffer and converting them
    with `atoi`. Reads are parameters (`None` for a read of zero or fewer bytes). */
module AesdSocket {
  import opened CTypes

  /** `BUFFER_MAX_SIZE`: the most one read delivers. */
  const BUFFER_MAX_SIZE: int := 1024

  /** The 19 bytes that start a seek command. */
  const SEEK_PREFIX: string := "AESDCHAR_IOCSEEKTO:"
  /** Its length, the 19 of the `memcmp`. */
  const PREFIX_LEN: nat := 19

  /** Index of the first `c` in `s`, or `|s|` when there is none (`memchr`, and the scan
      loop of `sock_read`). */
  function IndexOf(s: seq<char>, c: char): (i: nat)
    ensures i <= |s|
    ensures forall j :: 0 <= j < i ==> s[j] != c
    ensures i < |s| ==> s[i] == c
    ensures i == |s| <==> c !in s
  {
    if |s| == 0 then 0
    else if s[0] == c then 0
    else 1 + IndexOf(s[1..], c)
  }

  /** What `sock_read` keeps of a chunk: up to and including its first newline, or all
      of it when it has none. */
  function Kept(chunk: seq<char>): (k: seq<char>)
    ensures k <= chunk
    ensures '\n' !in chunk ==> k == chunk
  {
    var i := IndexOf(chunk, '\n');
    if i < |chunk| then chunk[..i + 1] else chunk
  }

  /** The kept part is a prefix of the chunk that holds a newline exactly when the chunk
      does, and then only as its last byte; everything after that newline is dropped. */
  lemma KeptIsFirstLine(chunk: seq<char>)
    ensures var k := Kept(chunk);
      k <= chunk &&
      ('\n' in k <==> '\n' in chunk) &&
      ('\n' !in chunk ==> k == chunk) &&
      ('\n' in chunk ==> k[|k| - 1] == '\n' && '\n' !in k[..|k| - 1])
  {
    var i := IndexOf(chunk, '\n');
    if i < |chunk| {
      assert chunk[..i + 1][i] == '\n';
      assert chunk[..i + 1][..i] == chunk[..i];
    }
  }

  /** The bytes gathered over a sequence of reads: each successful read appends what it
      keeps, a failed one nothing. */
  function Gathered(chunks: seq<Option<seq<char>>>): (g: seq<char>)
    ensures |chunks| > 0 && chunks[0].Some? ==> Kept(chunks[0].value) <= g
  {
    if |chunks| == 0 then []
    else
      var last := chunks[|chunks| - 1];
      Gathered(chunks[..|chunks| - 1]) + (if last.Some? then Kept(last.value) else [])
  }

  /** One more read appends its kept part, if any, to what was gathered. */
  lemma GatheredOneMore(chunks: seq<Option<seq<char>>>, n: nat)
    requires n < |chunks|
    ensures Gathered(chunks[..n + 1]) ==
      Gathered(chunks[..n]) + (if chunks[n].Some? then Kept(chunks[n].value) else [])
  {
    assert chunks[..n + 1][..n] == chunks[..n];
  }

  /** The read that ends the handler's read loop: the first one that fails or holds a
      newline, or `|chunks|` when none does. */
  function FirstLineEnd(chunks: seq<Option<seq<char>>>): (k: nat)
    ensures k <= |chunks|
    ensures forall j :: 0 <= j < k ==> chunks[j].Some? && '\n' !in chunks[j].value
    ensures k < |chunks| ==> chunks[k].None? || '\n' in chunks[k].value
  {
    if |chunks| == 0 then 0
    else if chunks[0].None? || '\n' in chunks[0].value then 0
    else 1 + FirstLineEnd(chunks[1..])
  }

  /** The first `n` reads all succeeded without a newline. */
  ghost predicate NoLineYet(chunks: seq<Option<seq<char>>>, n: nat)
    requires n <= |chunks|
  {
    forall j :: 0 <= j < n ==> chunks[j].Some? && '\n' !in chunks[j].value
  }

  /** `FirstLineEnd` is the first read that fails or holds a newline. */
  lemma FirstLineEndIs(chunks: seq<Option<seq<char>>>, k: nat)
    requires k <= |chunks|
    requires forall j :: 0 <= j < k ==> chunks[j].Some? && '\n' !in chunks[j].value
    requires k < |chunks| ==> chunks[k].None? || '\n' in chunks[k].value
    ensures FirstLineEnd(chunks) == k
  {
  }

  /** After `n` reads the handler's loop has result `r`: 0 while no read failed or held a
      newline, otherwise the verdict of the last read, the first to do so. */
  ghost predicate LoopState(chunks: seq<Option<seq<char>>>, n: nat, r: int)
  {
    n <= |chunks| &&
    (r == 0 ==> NoLineYet(chunks, n)) &&
    (r != 0 ==>
       0 < n && NoLineYet(chunks, n - 1) &&
       (chunks[n - 1].None? || '\n' in chunks[n - 1].value) &&
       r == (if chunks[n - 1].None? then -1 else 1))
  }

  /** Where the handler's read loop stops, and what it returns, as `FirstLineEnd` says. */
  lemma ReadLoopEnd(chunks: seq<Option<seq<char>>>, n: nat, r: int)
    requires LoopState(chunks, n, r) && (n == |chunks| || r != 0)
    ensures var k := FirstLineEnd(chunks);
      n == (if k < |chunks| then k + 1 else k) &&
      r == (if k == |chunks| then 0 else if chunks[k].None? then -1 else 1)
  {
    if r == 0 {
      FirstLineEndIs(chunks, n);
    } else {
      FirstLineEndIs(chunks, n - 1);
    }
  }

  /** The bytes gathered by reads that end with the first newline form one line: a
      newline is their last byte and nowhere else. This is what the seek-command parse
      relies on. */
  lemma {:induction false} GatheredIsOneLine(chunks: seq<Option<seq<char>>>)
    requires |chunks| > 0
    requires forall j :: 0 <= j < |chunks| ==> chunks[j].Some?
    requires forall j :: 0 <= j < |chunks| - 1 ==> '\n' !in chunks[j].value
    requires '\n' in chunks[|chunks| - 1].value
    ensures var g := Gathered(chunks);
      |g| > 0 && g[|g| - 1] == '\n' && '\n' !in g[..|g| - 1]
  {
    var n := |chunks| - 1;
    NoNewlineGathered(chunks[..n]);
    KeptIsFirstLine(chunks[n].value);
    var g, k := Gathered(chunks[..n]), Kept(chunks[n].value);
    assert Gathered(chunks) == g + k;
    assert (g + k)[..|g + k| - 1] == g + k[..|k| - 1];
  }

  /** Reads without a newline gather no newline. */
  lemma {:induction false} NoNewlineGathered(chunks: seq<Option<seq<char>>>)
    requires forall j :: 0 <= j < |chunks| ==> chunks[j].Some? ==> '\n' !in chunks[j].value
    ensures '\n' !in Gathered(chunks)
  {
    if |chunks| > 0 {
      var n := |chunks| - 1;
      NoNewlineGathered(chunks[..n]);
      if chunks[n].Some? {
        KeptIsFirstLine(chunks[n].value);
      }
    }
  }

  /** `struct client_node_t`, its buffer: `malloc_buffer` with `malloc_buffer_len` bytes. */
  class ClientNode {
    var buffer: seq<char>

    /** A node as the accept loop creates it: `malloc_buffer` is NULL. */
    constructor ()
      ensures buffer == []
    {
      buffer := [];
    }

    /** `sock_read` with the result of its one `read`: a failed or empty read returns -1
        and leaves the buffer alone; otherwise the chunk's first line is appended and the
        result says whether it held a newline. */
    method SockRead(chunk: Option<seq<char>>) returns (r: int)
      requires chunk.Some? ==> 1 <= |chunk.value| <= BUFFER_MAX_SIZE
      modifies this
      ensures chunk.None? ==> r == -1 && buffer == old(buffer)
      ensures chunk.Some? ==> buffer == old(buffer) + Kept(chunk.value)
      ensures chunk.Some? ==> (r == 1 <==> '\n' in chunk.value) && (r == 0 <==> '\n' !in chunk.value)
    {
      if chunk.None? {
        return -1;
      }
      var data := chunk.value;
      var index := 0;
      while index < |data| && data[index] != '\n'
        invariant 0 <= index <= |data|
        invariant forall j :: 0 <= j < index ==> data[j] != '\n'
      {
        index := index + 1;
      }
      assert index == IndexOf(data, '\n');
      var bytesCount := if index < |data| then index + 1 else |data|;
      buffer := buffer + data[..bytesCount];
      r := if index < |data| then 1 else 0;
    }

    /** The read loop of the connection handler: `sock_read` again while it returns 0;
        stop on -1 or 1. `readsDone` is how many reads were made before the loop ended,
        all of `chunks` when it has not. */
    method ReadRequest(chunks: seq<Option<seq<char>>>) returns (r: int, readsDone: nat)
      requires forall j :: 0 <= j < |chunks| ==> chunks[j].Some? ==> 1 <= |chunks[j].value| <= BUFFER_MAX_SIZE
      modifies this
      ensures var k := FirstLineEnd(chunks);
        readsDone == (if k < |chunks| then k + 1 else k) &&
        r == (if k == |chunks| then 0 else if chunks[k].None? then -1 else 1)
      ensures buffer == old(buffer) + Gathered(chunks[..readsDone])
    {
      r, readsDone := 0, 0;
      while readsDone < |chunks| && r == 0
        invariant LoopState(chunks, readsDone, r)
        invariant buffer == old(buffer) + Gathered(chunks[..readsDone])
      {
        GatheredOneMore(chunks, readsDone);
        r := SockRead(chunks[readsDone]);
        readsDone := readsDone + 1;
      }
      ReadLoopEnd(chunks, readsDone, r);
    }

    /** The seek-command parse of the connection handler, on the line `ReadRequest`
        gathered. The two NUL bytes are written into the buffer before each `atoi`, which
        stops at them. */
    method ParseSeek() returns (outcome: SeekOutcome)
      requires |buffer| > 0 && buffer[|buffer| - 1] == '\n'
      requires IsSeekCommand(buffer) ==> ',' in buffer
      modifies this
      ensures outcome == Seek(old(buffer))
      ensures buffer == SeekWritten(old(buffer))
    {
      var line := buffer;
      if !IsSeekCommand(line) {
        return PlainWrite;
      }
      var colon := IndexOf(line, ':');
      var comma := IndexOf(line, ',');
      FieldBounds(line);
      var writeCmd := colon + 1;
      if writeCmd == comma {
        assert Seek(line) == Rejected;
        return Rejected;
      }
      NulCutFields(line, comma);
      var work := line[comma := '\0'];
      buffer := work;
      var x := Atoi(work[writeCmd..]);
      assert x == Atoi(line[PREFIX_LEN..comma]);
      var writeOffset := comma + 1;
      if writeOffset == |work| - 1 {
        assert Seek(line) == Rejected;
        return Rejected;
      }
      var last := |work| - 1;
      work := work[last := '\0'];
      buffer := work;
      var y := Atoi(work[writeOffset..]);
      assert y == Atoi(line[comma + 1..|line| - 1]);
      outcome := SeekTo(x, y);
      assert Seek(line) == outcome;
    }
  }

  /** What the handler does with a gathered line. */
  datatype SeekOutcome =
    | PlainWrite                                 // written to the data file as it is
    | Rejected                                   // empty X or Y: the connection is closed
    | SeekTo(writeCmd: int, writeCmdOffset: int) // passed to the `AESDCHAR_IOCSEEKTO` ioctl

  /** The line starts with the 19 bytes of `AESDCHAR_IOCSEEKTO:` (the `memcmp`). */
  predicate IsSeekCommand(buf: seq<char>)
  {
    |buf| >= PREFIX_LEN && buf[..PREFIX_LEN] == SEEK_PREFIX
  }

  /** The parse of a line ending in a newline: X is `atoi` of the bytes between the
      colon and the first comma, Y of those between that comma and the final byte; a
      comma right after the colon, or right before the final byte, rejects the line. */
  function Seek(buf: seq<char>): (o: SeekOutcome)
    requires |buf| > 0 && buf[|buf| - 1] == '\n'
    requires IsSeekCommand(buf) ==> ',' in buf
    ensures o.PlainWrite? <==> !IsSeekCommand(buf)
  {
    if !IsSeekCommand(buf) then PlainWrite
    else
      var comma := IndexOf(buf, ',');
      if comma <= PREFIX_LEN || comma + 1 == |buf| - 1 then Rejected
      else SeekTo(Atoi(buf[PREFIX_LEN..comma]), Atoi(buf[comma + 1..|buf| - 1]))
  }

  /** The buffer after the parse: NUL over the first comma once X is non-empty, and NUL
      over the final byte once Y is non-empty too. */
  function SeekWritten(buf: seq<char>): (w: seq<char>)
    requires |buf| > 0 && buf[|buf| - 1] == '\n'
    requires IsSeekCommand(buf) ==> ',' in buf
    ensures |w| == |buf|
  {
    if !IsSeekCommand(buf) then buf
    else
      var comma := IndexOf(buf, ',');
      if comma <= PREFIX_LEN then buf
      else if comma + 1 == |buf| - 1 then buf[comma := '\0']
      else buf[comma := '\0'][|buf| - 1 := '\0']
  }

  /** X is empty: the comma follows the colon directly. */
  predicate EmptyX(buf: seq<char>)
  {
    |buf| > PREFIX_LEN && buf[PREFIX_LEN] == ','
  }

  /** Y is empty: the first comma after the colon is the byte before the final one. */
  predicate EmptyY(buf: seq<char>)
  {
    |buf| >= PREFIX_LEN + 2 && buf[|buf| - 2] == ',' && ',' !in buf[PREFIX_LEN..|buf| - 2]
  }

  /** A command is rejected exactly when its X or its Y is empty. */
  lemma RejectedIffFieldEmpty(buf: seq<char>)
    requires |buf| > 0 && buf[|buf| - 1] == '\n'
    requires IsSeekCommand(buf) ==> ',' in buf
    ensures Seek(buf) == Rejected <==> IsSeekCommand(buf) && (EmptyX(buf) || EmptyY(buf))
  {
    var n := PREFIX_LEN;
    if IsSeekCommand(buf) {
      PrefixIndex(buf);
      var rest := buf[n..];
      var comma := IndexOf(buf, ',');
      assert comma == n + IndexOf(rest, ',');
      assert EmptyX(buf) <==> comma == n;
      var a, b := buf[n..|buf| - 2], buf[|buf| - 2..];
      assert rest == a + b;
      IndexOfAppend(a, b, ',');
      assert EmptyY(buf) <==> comma == |buf| - 2;
    }
  }

  /** A command holding the decimal forms of two integers parses back to them. */
  lemma SeekRoundTrip(x: int, y: int)
    ensures var line := SEEK_PREFIX + Format(x) + [','] + Format(y) + ['\n'];
      |line| > 0 && line[|line| - 1] == '\n' && ',' in line &&
      Seek(line) == SeekTo(x, y)
  {
    AtoiFormat(x);
    AtoiFormat(y);
    SeekOfFields(Format(x), Format(y));
  }

  /** A command whose X field holds no comma and whose fields are both non-empty
      parses to `atoi` of each field. */
  lemma SeekOfFields(xs: seq<char>, ys: seq<char>)
    requires |xs| > 0 && |ys| > 0 && ',' !in xs
    ensures var line := SEEK_PREFIX + xs + [','] + ys + ['\n'];
      |line| > 0 && line[|line| - 1] == '\n' && ',' in line &&
      Seek(line) == SeekTo(Atoi(xs), Atoi(ys))
  {
    var n := PREFIX_LEN;
    var tail := [','] + ys + ['\n'];
    var line := SEEK_PREFIX + xs + tail;
    assert line == SEEK_PREFIX + xs + [','] + ys + ['\n'];
    assert line[..n] == SEEK_PREFIX;
    assert line[n..] == xs + tail;
    PrefixIndex(line);
    IndexOfAppend(xs, tail, ',');
    var comma := IndexOf(line, ',');
    assert comma == n + |xs|;
    assert IsSeekCommand(line) && comma > n && comma + 1 != |line| - 1;
    assert line[n..comma] == xs;
    assert line[comma + 1..|line| - 1] == ys;
  }

  /** In a seek command ending in a newline the X field starts right after the
      prefix's colon and the first comma lies between it and the final byte. */
  lemma FieldBounds(buf: seq<char>)
    requires |buf| > 0 && buf[|buf| - 1] == '\n'
    requires IsSeekCommand(buf) && ',' in buf
    ensures IndexOf(buf, ':') == PREFIX_LEN - 1
    ensures PREFIX_LEN <= IndexOf(buf, ',') < |buf| - 1
  {
    PrefixIndex(buf);
  }

  /** The first `c` of `a + b`: in `a` if `a` holds one, otherwise in `b`. */
  lemma {:induction false} IndexOfAppend(a: seq<char>, b: seq<char>, c: char)
    ensures IndexOf(a + b, c) == if c in a then IndexOf(a, c) else |a| + IndexOf(b, c)
  {
    if |a| == 0 {
      assert a + b == b;
    } else {
      assert (a + b)[1..] == a[1..] + b;
      if a[0] != c {
        IndexOfAppend(a[1..], b, c);
      }
    }
  }

  /** In a seek command the first colon is the prefix's own, and the first comma lies
      after the prefix. */
  lemma PrefixIndex(buf: seq<char>)
    requires IsSeekCommand(buf)
    ensures IndexOf(buf, ':') == PREFIX_LEN - 1
    ensures IndexOf(buf, ',') == PREFIX_LEN + IndexOf(buf[PREFIX_LEN..], ',')
  {
    PrefixMarks();
    IndexAfterPrefix(SEEK_PREFIX, buf, ':');
    IndexAfterPrefix(SEEK_PREFIX, buf, ',');
  }

  lemma IndexAfterPrefix(p: seq<char>, buf: seq<char>, c: char)
    requires p <= buf
    ensures IndexOf(buf, c) == if c in p then IndexOf(p, c) else |p| + IndexOf(buf[|p|..], c)
  {
    assert buf == p + buf[|p|..];
    IndexOfAppend(p, buf[|p|..], c);
  }

  /** The prefix's only colon is its last byte; it holds no comma. */
  lemma PrefixMarks()
    ensures |SEEK_PREFIX| == PREFIX_LEN
    ensures ':' in SEEK_PREFIX && IndexOf(SEEK_PREFIX, ':') == PREFIX_LEN - 1
    ensures ',' !in SEEK_PREFIX
  {
    var head := SEEK_PREFIX[..PREFIX_LEN - 1];
    assert SEEK_PREFIX == head + [':'];
    assert ':' !in head && ',' !in head;
    IndexOfAppend(head, [':'], ':');
  }

  /** `isspace` in the C locale. */
  predicate IsSpace(ch: char)
  {
    ch == ' ' || ch == '\t' || ch == '\n' || ch == '\U{000B}' || ch == '\U{000C}' || ch == '\r'
  }

  predicate IsDigit(ch: char)
  {
    '0' <= ch <= '9'
  }

  /** The input with its leading white space skipped. */
  function SkipSpace(s: seq<char>): seq<char>
  {
    if |s| > 0 && IsSpace(s[0]) then SkipSpace(s[1..]) else s
  }

  /** Number of leading decimal digits. */
  function DigitRun(s: seq<char>): (n: nat)
    ensures n <= |s|
    ensures forall j :: 0 <= j < n ==> IsDigit(s[j])
    ensures n < |s| ==> !IsDigit(s[n])
  {
    if |s| > 0 && IsDigit(s[0]) then 1 + DigitRun(s[1..]) else 0
  }

  function DigitOf(ch: char): (d: nat)
    requires IsDigit(ch)
    ensures d <= 9
  {
    ch as int - '0' as int
  }

  /** The value of a string of decimal digits, most significant first. */
  function DigitsValue(ds: seq<char>): nat
    requires forall j :: 0 <= j < |ds| ==> IsDigit(ds[j])
  {
    if |ds| == 0 then 0
    else DigitsValue(ds[..|ds| - 1]) * 10 + DigitOf(ds[|ds| - 1])
  }

  /** The value of the digits a string starts with. */
  function Magnitude(s: seq<char>): nat
  {
    DigitsValue(s[..DigitRun(s)])
  }

  /** `atoi`: white space, an optional sign, then as many decimal digits as follow.
      C's `int` overflow is not modelled. */
  function Atoi(s: seq<char>): (r: int)
    ensures r < 0 ==> |SkipSpace(s)| > 0 && SkipSpace(s)[0] == '-'
    ensures |SkipSpace(s)| == 0 ==> r == 0
    ensures |SkipSpace(s)| > 0 && !IsDigit(SkipSpace(s)[0]) && SkipSpace(s)[0] != '-' && SkipSpace(s)[0] != '+' ==> r == 0
  {
    var t := SkipSpace(s);
    if |t| > 0 && t[0] == '-' then -(Magnitude(t[1..]) as int)
    else if |t| > 0 && t[0] == '+' then Magnitude(t[1..])
    else Magnitude(t)
  }

  /** With NUL written over the comma, and then over the final byte, `atoi` from the
      start of each field reads exactly that field. */
  lemma NulCutFields(line: seq<char>, comma: nat)
    requires PREFIX_LEN < comma < |line| - 1
    ensures var w1 := line[comma := '\0'];
      var w2 := w1[|line| - 1 := '\0'];
      Atoi(w1[PREFIX_LEN..]) == Atoi(line[PREFIX_LEN..comma]) &&
      Atoi(w2[comma + 1..]) == Atoi(line[comma + 1..|line| - 1])
  {
    var w1 := line[comma := '\0'];
    NulCut(line, PREFIX_LEN, comma);
    NulCut(w1, comma + 1, |line| - 1);
    assert w1[comma + 1..|line| - 1] == line[comma + 1..|line| - 1];
  }

  /** `atoi` from `from`, once NUL is written at `to`, reads the bytes in between. */
  lemma NulCut(w: seq<char>, from: nat, to: nat)
    requires from <= to < |w|
    ensures Atoi(w[to := '\0'][from..]) == Atoi(w[from..to])
  {
    var u := w[to := '\0'];
    AtoiAtNul(u, from, to);
    assert u[from..to] == w[from..to];
  }

  /** `atoi` from `from` reads no further than the NUL byte at `to`. */
  lemma AtoiAtNul(w: seq<char>, from: nat, to: nat)
    requires from <= to < |w| && w[to] == '\0'
    ensures Atoi(w[from..]) == Atoi(w[from..to])
  {
    assert w[from..] == w[from..to] + ['\0'] + w[to + 1..];
    AtoiStopsAtNul(w[from..to], w[to + 1..]);
  }

  /** `atoi` reads no further than a NUL byte. */
  lemma {:induction false} AtoiStopsAtNul(s: seq<char>, t: seq<char>)
    ensures Atoi(s + ['\0'] + t) == Atoi(s)
  {
    var u := s + ['\0'] + t;
    SkipSpaceStopsAtNul(s, t);
    var ts := SkipSpace(s);
    assert SkipSpace(u) == ts + ['\0'] + t;
    if |ts| > 0 && (ts[0] == '-' || ts[0] == '+') {
      assert (ts + ['\0'] + t)[1..] == ts[1..] + ['\0'] + t;
      MagnitudeStopsAtNul(ts[1..], t);
    } else {
      MagnitudeStopsAtNul(ts, t);
    }
  }

  lemma {:induction false} SkipSpaceStopsAtNul(s: seq<char>, t: seq<char>)
    ensures SkipSpace(s + ['\0'] + t) == SkipSpace(s) + ['\0'] + t
  {
    if |s| > 0 && IsSpace(s[0]) {
      assert (s + ['\0'] + t)[1..] == s[1..] + ['\0'] + t;
      SkipSpaceStopsAtNul(s[1..], t);
    }
  }

  lemma MagnitudeStopsAtNul(s: seq<char>, t: seq<char>)
    ensures Magnitude(s + ['\0'] + t) == Magnitude(s)
  {
    var u := s + ['\0'] + t;
    var n := DigitRun(s);
    DigitRunOfPrefix(s, u);
    assert u[..n] == s[..n];
  }

  /** The digit run of `s` is also that of any extension of `s` by a non-digit. */
  lemma {:induction false} DigitRunOfPrefix(s: seq<char>, u: seq<char>)
    requires s <= u && (|u| > |s| ==> !IsDigit(u[|s|]))
    ensures DigitRun(u) == DigitRun(s)
  {
    if |s| > 0 && IsDigit(s[0]) {
      DigitRunOfPrefix(s[1..], u[1..]);
    }
  }

  /** The decimal digits of a natural number, without leading zeros. */
  function ToDecimal(n: nat): (ds: seq<char>)
    ensures |ds| > 0 && forall j :: 0 <= j < |ds| ==> IsDigit(ds[j])
  {
    var d := ['0' + (n % 10) as char];
    if n < 10 then d else ToDecimal(n / 10) + d
  }

  /** The decimal form of an integer: a minus sign for negatives. */
  function Format(x: int): (s: seq<char>)
    ensures |s| > 0
    ensures x < 0 ==> s[0] == '-'
    ensures x >= 0 ==> IsDigit(s[0])
    ensures ',' !in s && '\n' !in s
  {
    if x < 0 then ['-'] + ToDecimal(-x) else ToDecimal(x)
  }

  lemma {:induction false} DigitsValueToDecimal(n: nat)
    ensures DigitsValue(ToDecimal(n)) == n
  {
    var ds := ToDecimal(n);
    if n >= 10 {
      DigitsValueToDecimal(n / 10);
      assert ds[..|ds| - 1] == ToDecimal(n / 10);
    }
  }

  /** `atoi` reads back what `Format` writes. */
  lemma AtoiFormat(x: int)
    ensures Atoi(Format(x)) == x
  {
    var s := Format(x);
    var ds := if x < 0 then ToDecimal(-x) else ToDecimal(x);
    DigitsValueToDecimal(if x < 0 then -x else x);
    assert s[0] == '-' || IsDigit(s[0]);
    assert SkipSpace(s) == s;
    assert DigitRun(ds) == |ds|;
    if x < 0 {
      assert s[1..] == ds;
    }
    assert ds[..|ds|] == ds;
  }
}
