/** The datagram framing of gps/utils/LocIpc.cpp.  Messages of up to 8192 bytes travel as one
    datagram; a longer one is announced by a header with its length in decimal and cut into
    datagrams of 8192 bytes.

    The receiver reads into a buffer that still holds the end of the message before.  The
    main theorems, `RoundTripIffClean` and `SessionRoundTripIffClean`, say exactly which
    messages, and which sequences of them, survive that. */
module LocIpc {
  import opened Wrappers

  type byte = b: int | 0 <= b < 256

  type Bytes = seq<byte>

  const LOC_MSG_BUF_LEN: nat := 8192

  /** The bytes of `$MSGLEN$`. */
  const LOC_MSG_HEAD: Bytes := [36, 77, 83, 71, 76, 69, 78, 36]

  /** The bytes of `LocIpcMsg::ABORT`. */
  const LOC_MSG_ABORT: Bytes := [76, 111, 99, 73, 112, 99, 77, 115, 103, 58, 58, 65, 66, 79, 82, 84]

  /** `length` is a `uint32_t`. */
  const MAX_LENGTH: nat := 0xFFFF_FFFF

  // ---------- Decimal numbers ----------

  predicate IsDigit(b: byte) {
    48 <= b <= 57
  }

  /** `std::to_string`. */
  function ToDecimal(n: nat): (s: Bytes)
    ensures s != [] && forall i :: 0 <= i < |s| ==> IsDigit(s[i])
  {
    if n < 10 then [48 + n] else ToDecimal(n / 10) + [48 + n % 10]
  }

  function DigitValue(b: byte): nat
    requires IsDigit(b)
  {
    b - 48
  }

  /** The number the digits of `s` stand for. */
  function DigitsValue(s: Bytes): nat
    requires forall i :: 0 <= i < |s| ==> IsDigit(s[i])
  {
    if s == [] then 0 else 10 * DigitsValue(s[..|s| - 1]) + DigitValue(s[|s| - 1])
  }

  /** How many digits `s` begins with. */
  function DigitRun(s: Bytes): (k: nat)
    ensures k <= |s|
    ensures forall i :: 0 <= i < k ==> IsDigit(s[i])
    ensures k < |s| ==> !IsDigit(s[k])
  {
    if s == [] || !IsDigit(s[0]) then 0 else 1 + DigitRun(s[1..])
  }

  /** What `%zu` skips before the number. */
  function SkipSpace(s: Bytes): Bytes {
    if s != [] && (s[0] == 32 || 9 <= s[0] <= 13) then SkipSpace(s[1..]) else s
  }

  const SIZE_MODULUS: nat := 0x1_0000_0000_0000_0000

  /** What `sscanf` with `%zu` stores over the 0 that was there: digits after optional space
      and sign, cut off at the largest `size_t`; nothing when there is no digit. */
  function ScanSize(s: Bytes): nat {
    var t := SkipSpace(s);
    var signed := t != [] && (t[0] == 43 || t[0] == 45);
    var digits := if signed then t[1..] else t;
    var n := DigitsValue(digits[..DigitRun(digits)]);
    var v := if n >= SIZE_MODULUS then SIZE_MODULUS - 1 else n;
    if signed && t[0] == 45 && v != 0 then SIZE_MODULUS - v else v
  }

  /** Printing and reading a number are inverse. */
  lemma {:induction false} DecimalRoundTrip(n: nat)
    ensures DigitsValue(ToDecimal(n)) == n
  {
    if n >= 10 {
      DecimalRoundTrip(n / 10);
      var s := ToDecimal(n);
      assert s[..|s| - 1] == ToDecimal(n / 10);
    }
  }

  lemma {:induction false} DigitRunOf(s: Bytes, rest: Bytes)
    requires forall i :: 0 <= i < |s| ==> IsDigit(s[i])
    ensures DigitRun(s + rest) == |s| + DigitRun(rest)
  {
    if s == [] {
      assert s + rest == rest;
    } else {
      assert (s + rest)[1..] == s[1..] + rest;
      DigitRunOf(s[1..], rest);
    }
  }

  /** More digits after a positive number make it larger. */
  lemma {:induction false} MoreDigitsMeanMore(s: Bytes, more: Bytes)
    requires forall i :: 0 <= i < |s| ==> IsDigit(s[i])
    requires forall i :: 0 <= i < |more| ==> IsDigit(more[i])
    requires DigitsValue(s) > 0 && more != []
    ensures forall i :: 0 <= i < |s + more| ==> IsDigit((s + more)[i])
    ensures DigitsValue(s + more) > DigitsValue(s)
  {
    var t := s + more;
    assert t[..|t| - 1] == s + more[..|more| - 1];
    if |more| == 1 {
      assert s + more[..0] == s;
    } else {
      MoreDigitsMeanMore(s, more[..|more| - 1]);
    }
  }

  lemma ScanOfDigits(t: Bytes)
    requires t != [] && IsDigit(t[0])
    ensures var n := DigitsValue(t[..DigitRun(t)]); ScanSize(t) == if n >= SIZE_MODULUS then SIZE_MODULUS - 1 else n
  {
    assert SkipSpace(t) == t;
  }

  /** Digits that follow a positive number are read with it and make it larger. */
  lemma ReadingOn(s: Bytes, rest: Bytes)
    requires s != [] && forall i :: 0 <= i < |s| ==> IsDigit(s[i])
    requires DigitsValue(s) > 0
    ensures DigitsValue((s + rest)[..DigitRun(s + rest)]) >= DigitsValue(s)
    ensures DigitsValue((s + rest)[..DigitRun(s + rest)]) == DigitsValue(s) <==> DigitRun(rest) == 0
  {
    DigitRunOf(s, rest);
    var k := DigitRun(rest);
    assert (s + rest)[..|s| + k] == s + rest[..k];
    if k == 0 {
      assert s + rest[..0] == s;
    } else {
      MoreDigitsMeanMore(s, rest[..k]);
    }
  }

  /** The length read is the length printed exactly when no digit follows it. */
  lemma LengthIsReadIffNoDigitFollows(n: nat, rest: Bytes)
    requires 0 < n < SIZE_MODULUS - 1
    ensures ScanSize(ToDecimal(n) + rest) == n <==> rest == [] || !IsDigit(rest[0])
    ensures ScanSize(ToDecimal(n) + rest) >= n
  {
    ScanOfDigits(ToDecimal(n) + rest);
    DecimalRoundTrip(n);
    ReadingOn(ToDecimal(n), rest);
  }

  // ---------- Sending ----------

  /** Datagrams of at most the buffer length that carry `data`. */
  function Chunks(data: Bytes): seq<Bytes> {
    if data == [] then []
    else if |data| <= LOC_MSG_BUF_LEN then [data]
    else [data[..LOC_MSG_BUF_LEN]] + Chunks(data[LOC_MSG_BUF_LEN..])
  }

  function Header(length: nat): Bytes {
    LOC_MSG_HEAD + ToDecimal(length)
  }

  function Fragments(data: Bytes): seq<Bytes> {
    if |data| <= LOC_MSG_BUF_LEN then [data] else [Header(|data|)] + Chunks(data)
  }

  function Concat(parts: seq<Bytes>): Bytes {
    if parts == [] then [] else parts[0] + Concat(parts[1..])
  }

  /** The chunks together are the data, and every one but the last fills the buffer. */
  lemma {:induction false} ChunksAreTheData(data: Bytes)
    ensures var c := Chunks(data);
      && Concat(c) == data
      && (forall i :: 0 <= i < |c| - 1 ==> |c[i]| == LOC_MSG_BUF_LEN)
      && (c != [] ==> 0 < |c[|c| - 1]| <= LOC_MSG_BUF_LEN)
    decreases |data|
  {
    if |data| > LOC_MSG_BUF_LEN {
      var head, tail := data[..LOC_MSG_BUF_LEN], data[LOC_MSG_BUF_LEN..];
      ChunksAreTheData(tail);
      assert Chunks(data) == [head] + Chunks(tail) && Chunks(data)[1..] == Chunks(tail);
      assert head + tail == data;
      forall i | 0 < i < |Chunks(data)| ensures Chunks(data)[i] == Chunks(tail)[i - 1] {}
    } else if data != [] {
      assert Chunks(data) == [data] && [data][1..] == [] && data + [] == data;
    }
  }

  /** What a message is sent as: itself when it fits the buffer, and otherwise a header of the
      reserved word and the decimal length, and then the data in full buffers. */
  lemma MessageIsSentAs(data: Bytes)
    ensures |data| <= 8192 ==> Fragments(data) == [data]
    ensures |data| > 8192 ==>
      var f := Fragments(data);
      && |f| > 2 && f[0] == LOC_MSG_HEAD + ToDecimal(|data|) && Concat(f[1..]) == data
      && (forall i :: 0 < i < |f| - 1 ==> |f[i]| == 8192) && 0 < |f[|f| - 1]| <= 8192
  {
    if |data| > 8192 {
      ChunksAreTheData(data);
      var f, c := Fragments(data), Chunks(data);
      assert f[1..] == c;
      forall i | 0 < i < |f| ensures f[i] == c[i - 1] {}
    }
  }

  /** The sending side.  `failsAt` is the number of the `sendto` call that fails, if one does;
      what was sent before stays sent. */
  method SendData(data: Bytes, failsAt: Option<nat>) returns (result: bool, sent: seq<Bytes>)
    ensures result <==> failsAt.None? || failsAt.value >= |Fragments(data)|
    ensures sent == if result then Fragments(data) else Fragments(data)[..failsAt.value]
  {
    result, sent := true, [];
    if |data| <= LOC_MSG_BUF_LEN {
      if failsAt == Some(0) {
        result := false;
      } else {
        sent := [data];
      }
    } else if failsAt == Some(0) {
      result := false;
    } else {
      result, sent := SendLong(data, failsAt);
    }
  }

  /** The datagrams of a long message; the header is the first. */
  method SendLong(data: Bytes, failsAt: Option<nat>) returns (result: bool, sent: seq<Bytes>)
    requires |data| > LOC_MSG_BUF_LEN && failsAt != Some(0)
    ensures result <==> failsAt.None? || failsAt.value >= |Fragments(data)|
    ensures sent == if result then Fragments(data) else Fragments(data)[..failsAt.value]
  {
    result := true;
    sent := [Header(|data|)];
    var sentBytes := 0;
    ghost var k, chunks := 0, Chunks(data);
    ChunkCount(data);
    while sentBytes < |data|
      invariant 0 <= k <= |chunks| && sentBytes == Min(k * LOC_MSG_BUF_LEN, |data|)
      invariant sent == [Header(|data|)] + chunks[..k]
      invariant failsAt.Some? ==> |sent| <= failsAt.value
    {
      var partLen := |data| - sentBytes;
      if partLen > LOC_MSG_BUF_LEN {
        partLen := LOC_MSG_BUF_LEN;
      }
      ChunkAt(data, k);
      if failsAt == Some(|sent|) {
        return false, sent;
      }
      sent := sent + [data[sentBytes..sentBytes + partLen]];
      sentBytes := sentBytes + partLen;
      k := k + 1;
    }
    assert chunks[..k] == chunks;
  }

  lemma {:induction false} ChunkCount(data: Bytes)
    ensures (|Chunks(data)| - 1) * LOC_MSG_BUF_LEN < |data| || data == []
    ensures |data| <= |Chunks(data)| * LOC_MSG_BUF_LEN
    decreases |data|
  {
    if |data| > LOC_MSG_BUF_LEN {
      ChunkCount(data[LOC_MSG_BUF_LEN..]);
    }
  }

  /** Which part of the data chunk `k` is. */
  lemma {:induction false} ChunkAt(data: Bytes, k: nat)
    requires k * LOC_MSG_BUF_LEN < |data|
    ensures k < |Chunks(data)|
    ensures Chunks(data)[k] == data[k * LOC_MSG_BUF_LEN..Min((k + 1) * LOC_MSG_BUF_LEN, |data|)]
    decreases k
  {
    if |data| <= LOC_MSG_BUF_LEN {
      assert data[..|data|] == data;
    } else if k > 0 {
      var tail := data[LOC_MSG_BUF_LEN..];
      ChunkAt(tail, k - 1);
      SliceOfTail(data, LOC_MSG_BUF_LEN, (k - 1) * LOC_MSG_BUF_LEN, Min(k * LOC_MSG_BUF_LEN, |tail|));
    }
  }

  lemma SliceOfTail(data: Bytes, n: nat, a: nat, b: nat)
    requires n <= |data| && a <= b <= |data| - n
    ensures data[n..][a..b] == data[n + a..n + b]
  {
  }

  lemma ChunkStep(rest: Bytes, partLen: nat)
    requires rest != [] && partLen == if |rest| > LOC_MSG_BUF_LEN then LOC_MSG_BUF_LEN else |rest|
    ensures Chunks(rest) == [rest[..partLen]] + Chunks(rest[partLen..])
  {
    if |rest| <= LOC_MSG_BUF_LEN {
      assert rest[..partLen] == rest && rest[partLen..] == [];
      assert [rest] + [] == [rest];
    }
  }

  // ---------- Receiving ----------

  /** `std::string::resize`: cut off, or filled up with NUL. */
  function Resize(s: Bytes, n: nat): (r: Bytes)
    ensures |r| == n
  {
    if n <= |s| then s[..n] else s + seq(n - |s|, i => 0)
  }

  /** What a `recvfrom` into the beginning of the buffer leaves in it. */
  function Overlay(buf: Bytes, d: Bytes): (r: Bytes)
    ensures |r| == |buf|
  {
    if |d| <= |buf| then d + buf[|d|..] else d[..|buf|]
  }

  /** `strncmp` with a reserved word, which holds no NUL. */
  predicate StartsWith(buf: Bytes, word: Bytes) {
    |word| <= |buf| && buf[..|word|] == word
  }

  function Min(a: nat, b: nat): nat {
    if a < b then a else b
  }

  /** How the reading of a long message ends. */
  datatype FillResult = Filled(msg: Bytes, rest: seq<Bytes>) | Blocked | Failed

  /** Reads datagrams until `msgLen` bytes are there; an empty one ends it. */
  function Fill(received: Bytes, msgLen: nat, queue: seq<Bytes>): FillResult
    decreases queue
  {
    if |received| >= msgLen then Filled(received, queue)
    else if queue == [] then Blocked
    else
      var n := Min(|queue[0]|, msgLen - |received|);
      if n == 0 then Failed else Fill(received + queue[0][..n], msgLen, queue[1..])
  }

  /** What a listener has delivered when it waits for more or ends; `stopped` when it was
      asked to, `failed` when it gave up. */
  datatype Outcome = Outcome(received: seq<Bytes>, stopped: bool, failed: bool)

  function Deliver(m: Bytes, o: Outcome): Outcome {
    o.(received := [m] + o.received)
  }

  /** The receive loop over the datagrams of `queue`, with `msg` left from the message before. */
  function Listen(msg: Bytes, queue: seq<Bytes>): Outcome
    decreases |queue|, 0
  {
    if queue == [] then Outcome([], false, false)
    else
      var d := queue[0];
      var buf := Overlay(Resize(msg, LOC_MSG_BUF_LEN), d);
      if |d| == 0 then Listen(buf, queue[1..])
      else if StartsWith(buf, LOC_MSG_ABORT) then Outcome([], true, false)
      else if !StartsWith(buf, LOC_MSG_HEAD) then
        var m := buf[..Min(|d|, LOC_MSG_BUF_LEN)];
        Deliver(m, Listen(m, queue[1..]))
      else
        var msgLen := ScanSize(buf[|LOC_MSG_HEAD|..]);
        FillTakesFromQueue([], msgLen, queue[1..]);
        ListenAfter(Fill([], msgLen, queue[1..]))
  }

  /** The same from the end of the reading of a long message. */
  function ListenAfter(f: FillResult): Outcome
    decreases if f.Filled? then |f.rest| else 0, 1
  {
    match f
    case Filled(m, rest) => Deliver(m, Listen(m, rest))
    case Blocked => Outcome([], false, false)
    case Failed => Outcome([], false, true)
  }

  /** Filling takes datagrams off the queue. */
  lemma {:induction false} FillTakesFromQueue(received: Bytes, msgLen: nat, queue: seq<Bytes>)
    requires |received| <= msgLen
    ensures var f := Fill(received, msgLen, queue); f.Filled? ==> |f.rest| <= |queue| && |f.msg| == msgLen
    decreases queue
  {
    if |received| < msgLen && queue != [] {
      var n := Min(|queue[0]|, msgLen - |received|);
      if n > 0 {
        FillTakesFromQueue(received + queue[0][..n], msgLen, queue[1..]);
      }
    }
  }

  /** The chunks of a message fill exactly its length again. */
  lemma {:induction false} FillReadsChunks(received: Bytes, data: Bytes, rest: seq<Bytes>)
    ensures Fill(received, |received| + |data|, Chunks(data) + rest) == Filled(received + data, rest)
    decreases |data|
  {
    if data == [] {
      assert received + data == received && Chunks(data) + rest == rest;
    } else {
      var n := Min(|data|, LOC_MSG_BUF_LEN);
      var c, tail := data[..n], data[n..];
      ChunkStep(data, n);
      assert Chunks(data) + rest == [c] + (Chunks(tail) + rest);
      assert ([c] + (Chunks(tail) + rest))[1..] == Chunks(tail) + rest;
      assert c[..n] == c;
      FillReadsChunks(received + c, tail, rest);
      assert received + c + tail == received + data;
    }
  }

  /** With a larger length announced the reading does not end with the chunks. */
  lemma {:induction false} FillWaitsForMore(received: Bytes, data: Bytes, msgLen: nat)
    requires |received| + |data| < msgLen
    ensures Fill(received, msgLen, Chunks(data)) == Blocked
    decreases |data|
  {
    if data != [] {
      var n := Min(|data|, LOC_MSG_BUF_LEN);
      var c, tail := data[..n], data[n..];
      ChunkStep(data, n);
      assert ([c] + Chunks(tail))[1..] == Chunks(tail);
      assert c[..n] == c;
      FillWaitsForMore(received + c, tail, msgLen);
    }
  }

  // ---------- Round trips ----------

  function Pow10(k: nat): nat {
    if k == 0 then 1 else 10 * Pow10(k - 1)
  }

  lemma {:induction false} DecimalLength(n: nat, k: nat)
    requires 0 < k && n < Pow10(k)
    ensures |ToDecimal(n)| <= k
    decreases k
  {
    if n >= 10 {
      assert 1 < k;
      DecimalLength(n / 10, k - 1);
    }
  }

  lemma HeaderIsShort(n: nat)
    requires n <= MAX_LENGTH
    ensures |Header(n)| <= 18
  {
    assert Pow10(10) == 10_000_000_000 by {
      assert Pow10(2) == 100 && Pow10(4) == 10_000 && Pow10(6) == 1_000_000 && Pow10(8) == 100_000_000;
    }
    DecimalLength(n, 10);
  }

  /** The condition under which a message survives, when `prev` was the message before: the
      buffer, as `prev` left it, does not turn a short message into a reserved word, and does
      not lengthen the number in the header of a long one.  A sender can check it. */
  predicate Clean(prev: Bytes, data: Bytes)
    requires |data| <= MAX_LENGTH
  {
    var buf := Resize(prev, LOC_MSG_BUF_LEN);
    data != [] &&
    if |data| <= LOC_MSG_BUF_LEN
    then !StartsWith(Overlay(buf, data), LOC_MSG_ABORT) && !StartsWith(Overlay(buf, data), LOC_MSG_HEAD)
    else HeaderIsShort(|data|); !IsDigit(buf[|Header(|data|)|])
  }

  lemma ShortMessage(prev: Bytes, data: Bytes, more: seq<Bytes>)
    requires |data| <= LOC_MSG_BUF_LEN
    ensures Clean(prev, data) ==> Listen(prev, Fragments(data) + more) == Deliver(data, Listen(data, more))
    ensures !Clean(prev, data) ==> data !in Listen(prev, Fragments(data)).received
  {
    var buf := Overlay(Resize(prev, LOC_MSG_BUF_LEN), data);
    assert ([data] + more)[1..] == more;
    assert buf[..|data|] == data;
    if !Clean(prev, data) && data != [] && !StartsWith(buf, LOC_MSG_ABORT) {
      assert Fragments(data)[1..] == [];
    }
  }

  lemma FirstByteDiffers(buf: Bytes, word: Bytes)
    requires buf != [] && word != [] && buf[0] != word[0]
    ensures !StartsWith(buf, word)
  {
    if |word| <= |buf| {
      assert buf[..|word|][0] == buf[0];
    }
  }

  /** The buffer after the header of a long message was read into it. */
  lemma HeaderInBuffer(prev: Bytes, n: nat)
    requires n <= MAX_LENGTH
    ensures var buf, h := Resize(prev, LOC_MSG_BUF_LEN), Header(n);
      && |h| < LOC_MSG_BUF_LEN
      && !StartsWith(Overlay(buf, h), LOC_MSG_ABORT) && StartsWith(Overlay(buf, h), LOC_MSG_HEAD)
      && Overlay(buf, h)[|LOC_MSG_HEAD|..] == ToDecimal(n) + buf[|h|..]
  {
    HeaderIsShort(n);
    var buf, h := Resize(prev, LOC_MSG_BUF_LEN), Header(n);
    var o := Overlay(buf, h);
    assert o[0] == 36;
    FirstByteDiffers(o, LOC_MSG_ABORT);
    assert o[..|LOC_MSG_HEAD|] == LOC_MSG_HEAD;
  }

  /** Receiving the header: the rest is read by the length the buffer shows. */
  lemma HeaderIsRead(prev: Bytes, n: nat, queue: seq<Bytes>) returns (msgLen: nat)
    requires 0 < n <= MAX_LENGTH
    ensures msgLen >= n && |Header(n)| < LOC_MSG_BUF_LEN
    ensures msgLen == n <==> !IsDigit(Resize(prev, LOC_MSG_BUF_LEN)[|Header(n)|])
    ensures Listen(prev, [Header(n)] + queue) == ListenAfter(Fill([], msgLen, queue))
  {
    HeaderInBuffer(prev, n);
    var rest := Resize(prev, LOC_MSG_BUF_LEN)[|Header(n)|..];
    LengthIsReadIffNoDigitFollows(n, rest);
    msgLen := ScanSize(ToDecimal(n) + rest);
    assert ([Header(n)] + queue)[1..] == queue;
  }

  lemma LongMessage(prev: Bytes, data: Bytes, more: seq<Bytes>)
    requires LOC_MSG_BUF_LEN < |data| <= MAX_LENGTH
    ensures Clean(prev, data) ==> Listen(prev, Fragments(data) + more) == Deliver(data, Listen(data, more))
    ensures !Clean(prev, data) ==> Listen(prev, Fragments(data)).received == []
  {
    if Clean(prev, data) {
      var queue := LongFragments(data, more);
      var msgLen := HeaderIsRead(prev, |data|, queue);
      ChunksAreRead(data, more);
    } else {
      var msgLen := HeaderIsRead(prev, |data|, Chunks(data));
      FillWaitsForMore([], data, msgLen);
    }
  }

  /** What follows the header of a long message in the queue. */
  lemma LongFragments(data: Bytes, more: seq<Bytes>) returns (queue: seq<Bytes>)
    requires LOC_MSG_BUF_LEN < |data|
    ensures queue == Chunks(data) + more && Fragments(data) + more == [Header(|data|)] + queue
  {
    queue := Chunks(data) + more;
    assert [Header(|data|)] + Chunks(data) + more == [Header(|data|)] + queue;
  }

  lemma ChunksAreRead(data: Bytes, more: seq<Bytes>)
    ensures ListenAfter(Fill([], |data|, Chunks(data) + more)) == Deliver(data, Listen(data, more))
  {
    FillReadsChunks([], data, more);
    assert [] + data == data;
  }

  /** Main theorem: a message is sent, cut up and received again as it was, exactly when it
      is clean for what the buffer holds. */
  lemma RoundTripIffClean(prev: Bytes, data: Bytes)
    requires |data| <= MAX_LENGTH
    ensures Listen(prev, Fragments(data)) == Outcome([data], false, false) <==> Clean(prev, data)
  {
    assert Fragments(data) + [] == Fragments(data);
    if |data| <= LOC_MSG_BUF_LEN {
      ShortMessage(prev, data, []);
    } else {
      LongMessage(prev, data, []);
    }
  }

  /** To a listener that has just started every message is clean that is not empty and, if
      short, does not begin with a reserved word. */
  lemma FreshListener(data: Bytes)
    requires |data| <= MAX_LENGTH
    ensures Clean([], data) <==>
      data != [] && (|data| <= LOC_MSG_BUF_LEN ==> !StartsWith(data, LOC_MSG_ABORT) && !StartsWith(data, LOC_MSG_HEAD))
  {
    var buf := Resize([], LOC_MSG_BUF_LEN);
    if |data| <= LOC_MSG_BUF_LEN {
      NulEndsNoWord(buf, data, LOC_MSG_ABORT);
      NulEndsNoWord(buf, data, LOC_MSG_HEAD);
    } else {
      HeaderIsShort(|data|);
    }
  }

  /** With NUL behind it a message begins with a word only by itself. */
  lemma NulEndsNoWord(buf: Bytes, data: Bytes, word: Bytes)
    requires |data| <= |buf| && |word| <= |buf|
    requires forall i :: 0 <= i < |buf| ==> buf[i] == 0
    requires forall i :: 0 <= i < |word| ==> word[i] != 0
    ensures StartsWith(Overlay(buf, data), word) <==> StartsWith(data, word)
  {
    var o := Overlay(buf, data);
    if |word| <= |data| {
      assert o[..|word|] == data[..|word|];
    } else {
      assert o[|data|] == 0 && word[|data|] != 0;
      assert o[..|word|][|data|] == 0;
    }
  }

  /** All messages of a session, one after the other. */
  function Session(messages: seq<Bytes>): seq<Bytes> {
    if messages == [] then [] else Fragments(messages[0]) + Session(messages[1..])
  }

  /** Every message is clean after the one before it. */
  predicate CleanSession(prev: Bytes, messages: seq<Bytes>)
    requires forall i :: 0 <= i < |messages| ==> |messages[i]| <= MAX_LENGTH
    decreases messages
  {
    messages == [] || (Clean(prev, messages[0]) && CleanSession(messages[0], messages[1..]))
  }

  // Nothing but clean messages gets a session through: whatever is in the queue, the messages
  // delivered from it could not be sent in more datagrams than it holds, and a message that is
  // not clean wastes one.

  predicate FitsBuffer(queue: seq<Bytes>) {
    forall d :: d in queue ==> |d| <= LOC_MSG_BUF_LEN
  }

  lemma {:induction false} ChunksFit(data: Bytes)
    ensures FitsBuffer(Chunks(data))
    decreases |data|
  {
    if |data| > LOC_MSG_BUF_LEN {
      ChunksFit(data[LOC_MSG_BUF_LEN..]);
    }
  }

  lemma {:induction false} SessionFits(messages: seq<Bytes>)
    requires forall i :: 0 <= i < |messages| ==> |messages[i]| <= MAX_LENGTH
    ensures FitsBuffer(Session(messages))
    decreases messages
  {
    if messages != [] {
      SessionFits(messages[1..]);
      ChunksFit(messages[0]);
      HeaderIsShort(|messages[0]|);
    }
  }

  /** No more chunks than full buffers are needed for the bytes. */
  lemma {:induction false} ChunksNeeded(data: Bytes, c: nat)
    requires |data| <= c * LOC_MSG_BUF_LEN
    ensures |Chunks(data)| <= c
    decreases c
  {
    if |data| > LOC_MSG_BUF_LEN {
      ChunksNeeded(data[LOC_MSG_BUF_LEN..], c - 1);
    }
  }

  /** What a reading of a long message takes from the queue. */
  lemma {:induction false} FillTakes(received: Bytes, msgLen: nat, queue: seq<Bytes>)
    requires |received| <= msgLen && FitsBuffer(queue)
    ensures var f := Fill(received, msgLen, queue);
      f.Filled? ==>
        && |f.msg| == msgLen && FitsBuffer(f.rest) && |f.rest| <= |queue|
        && msgLen - |received| <= (|queue| - |f.rest|) * LOC_MSG_BUF_LEN
    decreases queue
  {
    if |received| < msgLen && queue != [] {
      var n := Min(|queue[0]|, msgLen - |received|);
      assert queue[0] in queue && forall d :: d in queue[1..] ==> d in queue;
      if n > 0 {
        FillTakes(received + queue[0][..n], msgLen, queue[1..]);
      }
    }
  }

  lemma FragmentsNeeded(m: Bytes, c: nat)
    requires |m| <= c * LOC_MSG_BUF_LEN
    ensures |Fragments(m)| <= 1 + c
  {
    ChunksNeeded(m, c);
  }

  lemma SessionOfDelivered(m: Bytes, rest: seq<Bytes>)
    ensures Session([m] + rest) == Fragments(m) + Session(rest)
  {
    assert ([m] + rest)[1..] == rest;
  }

  /** The messages delivered could not be sent in more datagrams than were in the queue. */
  lemma {:induction false} DeliveriesNeedDatagrams(msg: Bytes, queue: seq<Bytes>)
    requires FitsBuffer(queue)
    ensures |Session(Listen(msg, queue).received)| <= |queue|
    decreases |queue|, 0
  {
    if queue != [] {
      var d, rest := queue[0], queue[1..];
      var buf := Overlay(Resize(msg, LOC_MSG_BUF_LEN), d);
      assert forall x :: x in rest ==> x in queue;
      if |d| == 0 {
        DeliveriesNeedDatagrams(buf, rest);
      } else if !StartsWith(buf, LOC_MSG_ABORT) && !StartsWith(buf, LOC_MSG_HEAD) {
        var m := buf[..Min(|d|, LOC_MSG_BUF_LEN)];
        DeliveriesNeedDatagrams(m, rest);
        SessionOfDelivered(m, Listen(m, rest).received);
      } else if !StartsWith(buf, LOC_MSG_ABORT) {
        LongDeliveryNeedsDatagrams(ScanSize(buf[|LOC_MSG_HEAD|..]), rest);
      }
    }
  }

  lemma {:induction false} LongDeliveryNeedsDatagrams(msgLen: nat, queue: seq<Bytes>)
    requires FitsBuffer(queue)
    ensures |Session(ListenAfter(Fill([], msgLen, queue)).received)| <= 1 + |queue|
    decreases |queue|, 1
  {
    FillTakes([], msgLen, queue);
    var f := Fill([], msgLen, queue);
    if f.Filled? {
      FragmentsNeeded(f.msg, |queue| - |f.rest|);
      DeliveriesNeedDatagrams(f.msg, f.rest);
      SessionOfDelivered(f.msg, Listen(f.msg, f.rest).received);
    }
  }

  /** A message that is not clean is not received along with everything after it. */
  lemma UncleanLosesSession(prev: Bytes, m: Bytes, rest: seq<Bytes>)
    requires |m| <= MAX_LENGTH && FitsBuffer(Session(rest)) && !Clean(prev, m)
    ensures Listen(prev, Session([m] + rest)).received != [m] + rest
  {
    SessionOfDelivered(m, rest);
    if |m| > LOC_MSG_BUF_LEN {
      UncleanLongLosesSession(prev, m, rest);
    } else if m == [] {
      DeliveriesNeedDatagrams(Overlay(Resize(prev, LOC_MSG_BUF_LEN), m), Session(rest));
      assert ([m] + Session(rest))[1..] == Session(rest);
    } else {
      UncleanShortLosesSession(prev, m, rest);
    }
  }

  lemma UncleanLongLosesSession(prev: Bytes, m: Bytes, rest: seq<Bytes>)
    requires LOC_MSG_BUF_LEN < |m| <= MAX_LENGTH && !Clean(prev, m)
    ensures Listen(prev, Fragments(m) + Session(rest)).received != [m] + rest
  {
    var queue := LongFragments(m, Session(rest));
    var msgLen := HeaderIsRead(prev, |m|, queue);
    FillTakesFromQueue([], msgLen, queue);
    var r := Listen(prev, Fragments(m) + Session(rest)).received;
    assert r != [] ==> |r[0]| == msgLen;
    assert ([m] + rest)[0] == m;
  }

  lemma UncleanShortLosesSession(prev: Bytes, m: Bytes, rest: seq<Bytes>)
    requires 0 < |m| <= LOC_MSG_BUF_LEN && FitsBuffer(Session(rest)) && !Clean(prev, m)
    ensures Listen(prev, Fragments(m) + Session(rest)).received != [m] + rest
  {
    var buf := Overlay(Resize(prev, LOC_MSG_BUF_LEN), m);
    assert ([m] + Session(rest))[1..] == Session(rest);
    if !StartsWith(buf, LOC_MSG_ABORT) {
      var msgLen := ScanSize(buf[|LOC_MSG_HEAD|..]);
      FillTakes([], msgLen, Session(rest));
      var f := Fill([], msgLen, Session(rest));
      if f.Filled? {
        DeliveriesNeedDatagrams(f.msg, f.rest);
        var r := Listen(f.msg, f.rest).received;
        assert ([f.msg] + r)[0] == f.msg && ([f.msg] + r)[1..] == r;
        assert ([m] + rest)[0] == m && ([m] + rest)[1..] == rest;
      }
    }
  }

  /** Main theorem on sessions of any length: all their messages are received, as they were and
      in order, if and only if every message is clean after the one before it. */
  lemma {:induction false} SessionRoundTripIffClean(prev: Bytes, messages: seq<Bytes>)
    requires forall i :: 0 <= i < |messages| ==> |messages[i]| <= MAX_LENGTH
    ensures Listen(prev, Session(messages)) == Outcome(messages, false, false) <==> CleanSession(prev, messages)
    decreases messages
  {
    if messages != [] {
      var m, rest := messages[0], messages[1..];
      SessionFits(rest);
      SessionRoundTripIffClean(m, rest);
      assert [m] + rest == messages;
      if !Clean(prev, m) {
        UncleanLosesSession(prev, m, rest);
      } else if |m| <= LOC_MSG_BUF_LEN {
        ShortMessage(prev, m, Session(rest));
      } else {
        LongMessage(prev, m, Session(rest));
      }
    }
  }

  // ---------- Stopping, failing, and empty datagrams ----------

  /** What is left in the buffer field after a session. */
  function Left(prev: Bytes, messages: seq<Bytes>): Bytes {
    if messages == [] then prev else messages[|messages| - 1]
  }

  /** After a clean session the listener is where a listener with its last message is. */
  lemma {:induction false} AfterSession(prev: Bytes, messages: seq<Bytes>, more: seq<Bytes>)
    requires forall i :: 0 <= i < |messages| ==> |messages[i]| <= MAX_LENGTH
    requires CleanSession(prev, messages)
    ensures Listen(prev, Session(messages) + more) == Prepend(messages, Listen(Left(prev, messages), more))
    decreases messages
  {
    if messages == [] {
      assert Session(messages) + more == more;
    } else {
      var m, rest := messages[0], messages[1..];
      AfterSession(m, rest, more);
      OneMoreMessage(prev, m, rest, more, Listen(Left(m, rest), more));
      LeftOfRest(prev, m, rest);
      assert [m] + rest == messages;
    }
  }

  lemma LeftOfRest(prev: Bytes, m: Bytes, rest: seq<Bytes>)
    ensures Left(prev, [m] + rest) == Left(m, rest)
  {
  }

  lemma OneMoreMessage(prev: Bytes, m: Bytes, rest: seq<Bytes>, more: seq<Bytes>, o: Outcome)
    requires |m| <= MAX_LENGTH && Clean(prev, m)
    requires Listen(m, Session(rest) + more) == Prepend(rest, o)
    ensures Listen(prev, Session([m] + rest) + more) == Prepend([m] + rest, o)
  {
    var queue := SessionAndMore(m, rest, more);
    AfterMessage(prev, m, queue);
    PrependMessage(m, rest, o);
  }

  lemma SessionAndMore(m: Bytes, rest: seq<Bytes>, more: seq<Bytes>) returns (queue: seq<Bytes>)
    ensures queue == Session(rest) + more && Session([m] + rest) + more == Fragments(m) + queue
  {
    SessionOfDelivered(m, rest);
    queue := Session(rest) + more;
    JoinedQueue(Fragments(m), Session(rest), more);
  }

  lemma JoinedQueue(a: seq<Bytes>, b: seq<Bytes>, c: seq<Bytes>)
    ensures a + b + c == a + (b + c)
  {
  }

  lemma AfterMessage(prev: Bytes, m: Bytes, queue: seq<Bytes>)
    requires |m| <= MAX_LENGTH && Clean(prev, m)
    ensures Listen(prev, Fragments(m) + queue) == Deliver(m, Listen(m, queue))
  {
    if |m| <= LOC_MSG_BUF_LEN {
      ShortMessage(prev, m, queue);
    } else {
      LongMessage(prev, m, queue);
    }
  }

  lemma PrependMessage(m: Bytes, rest: seq<Bytes>, o: Outcome)
    ensures Deliver(m, Prepend(rest, o)) == Prepend([m] + rest, o)
  {
  }

  /** The abort message ends the listening, whatever the buffer holds and whatever follows. */
  lemma AbortStops(prev: Bytes, messages: seq<Bytes>, more: seq<Bytes>)
    requires forall i :: 0 <= i < |messages| ==> |messages[i]| <= MAX_LENGTH
    requires CleanSession(prev, messages)
    ensures Listen(prev, Session(messages) + ([LOC_MSG_ABORT] + more)) == Outcome(messages, true, false)
  {
    AfterSession(prev, messages, [LOC_MSG_ABORT] + more);
    var buf := Overlay(Resize(Left(prev, messages), LOC_MSG_BUF_LEN), LOC_MSG_ABORT);
    assert buf[..|LOC_MSG_ABORT|] == LOC_MSG_ABORT;
    PrependNothing(messages, true, false);
  }

  /** A datagram after a clean session stops the listener there exactly when it is not empty and
      the buffer with it begins with the abort word. */
  lemma StopsIff(prev: Bytes, messages: seq<Bytes>, d: Bytes, more: seq<Bytes>)
    requires forall i :: 0 <= i < |messages| ==> |messages[i]| <= MAX_LENGTH
    requires CleanSession(prev, messages) && d != []
    ensures Listen(prev, Session(messages) + ([d] + more)) == Outcome(messages, true, false)
       <==> StartsWith(Overlay(Resize(Left(prev, messages), LOC_MSG_BUF_LEN), d), LOC_MSG_ABORT)
  {
    AfterSession(prev, messages, [d] + more);
    StopsAtFirst(Left(prev, messages), d, more);
    NothingPrepended(messages, Listen(Left(prev, messages), [d] + more), true, false);
  }

  lemma StopsAtFirst(left: Bytes, d: Bytes, more: seq<Bytes>)
    requires d != []
    ensures Listen(left, [d] + more) == Outcome([], true, false)
       <==> StartsWith(Overlay(Resize(left, LOC_MSG_BUF_LEN), d), LOC_MSG_ABORT)
  {
    var queue := [d] + more;
    assert queue[0] == d && queue[1..] == more;
  }

  lemma NothingPrepended(messages: seq<Bytes>, o: Outcome, stopped: bool, failed: bool)
    ensures Prepend(messages, o) == Outcome(messages, stopped, failed) <==> o == Outcome([], stopped, failed)
  {
    assert |messages + o.received| == |messages| + |o.received|;
  }

  /** Without an abort word at the start of some datagram, as far as that goes, nothing stops
      the listener. */
  lemma {:induction false} StopNeedsAbortBytes(msg: Bytes, queue: seq<Bytes>)
    requires Listen(msg, queue).stopped
    ensures exists d :: d in queue && d != [] && BeginsWith(d, LOC_MSG_ABORT)
    decreases |queue|
  {
    var d, rest := queue[0], queue[1..];
    var buf := Overlay(Resize(msg, LOC_MSG_BUF_LEN), d);
    if |d| == 0 {
      StopNeedsAbortBytes(buf, rest);
      assert forall x :: x in rest ==> x in queue;
    } else if StartsWith(buf, LOC_MSG_ABORT) {
      BufferBegins(buf, d, LOC_MSG_ABORT);
      assert d in queue;
    } else if !StartsWith(buf, LOC_MSG_HEAD) {
      StopNeedsAbortBytes(buf[..Min(|d|, LOC_MSG_BUF_LEN)], rest);
      assert forall x :: x in rest ==> x in queue;
    } else {
      var f := Fill([], ScanSize(buf[|LOC_MSG_HEAD|..]), rest);
      FillTakesFromQueue([], ScanSize(buf[|LOC_MSG_HEAD|..]), rest);
      FillLeavesSuffix([], ScanSize(buf[|LOC_MSG_HEAD|..]), rest);
      StopNeedsAbortBytes(f.msg, f.rest);
      assert forall x :: x in rest ==> x in queue;
    }
  }

  /** The datagram agrees with the word as far as both go. */
  predicate BeginsWith(d: Bytes, word: Bytes) {
    var n := Min(|d|, |word|);
    d[..n] == word[..n]
  }

  lemma BufferBegins(buf: Bytes, d: Bytes, word: Bytes)
    requires |word| <= |buf| && StartsWith(buf, word) && forall i :: 0 <= i < |d| && i < |buf| ==> buf[i] == d[i]
    ensures BeginsWith(d, word)
  {
    var n := Min(|d|, |word|);
    forall i | 0 <= i < n ensures d[i] == word[i] {
      assert buf[..|word|][i] == buf[i];
    }
  }

  lemma {:induction false} FillLeavesSuffix(received: Bytes, msgLen: nat, queue: seq<Bytes>)
    ensures var f := Fill(received, msgLen, queue); f.Filled? ==> forall d :: d in f.rest ==> d in queue
    decreases queue
  {
    if |received| < msgLen && queue != [] {
      var n := Min(|queue[0]|, msgLen - |received|);
      if n > 0 {
        FillLeavesSuffix(received + queue[0][..n], msgLen, queue[1..]);
        assert forall x :: x in queue[1..] ==> x in queue;
      }
    }
  }

  /** How many bytes the datagrams hold. */
  function TotalLength(queue: seq<Bytes>): nat {
    if queue == [] then 0 else |queue[0]| + TotalLength(queue[1..])
  }

  /** An empty datagram comes before the others have brought `n` bytes. */
  ghost predicate EmptyTooSoon(queue: seq<Bytes>, n: nat) {
    exists k :: 0 <= k < |queue| && queue[k] == [] && TotalLength(queue[..k]) < n
  }

  /** The reading of a long message fails exactly at an empty datagram that comes too soon. */
  lemma {:induction false} FillFailsIff(received: Bytes, msgLen: nat, queue: seq<Bytes>)
    ensures Fill(received, msgLen, queue).Failed? <==> |received| < msgLen && EmptyTooSoon(queue, msgLen - |received|)
    decreases queue
  {
    if |received| < msgLen && queue != [] {
      var d, rest, missing := queue[0], queue[1..], msgLen - |received|;
      var n := Min(|d|, missing);
      if n == 0 {
        assert queue[0] == [] && TotalLength(queue[..0]) == 0;
      } else {
        FillFailsIff(received + d[..n], msgLen, rest);
        EmptyInTail(queue, missing);
      }
    }
  }

  lemma EmptyInTail(queue: seq<Bytes>, n: nat)
    requires queue != [] && queue[0] != []
    ensures EmptyTooSoon(queue, n) <==> |queue[0]| < n && EmptyTooSoon(queue[1..], n - |queue[0]|)
  {
    var rest := queue[1..];
    forall k | 0 <= k < |rest| ensures TotalLength(queue[..k + 1]) == |queue[0]| + TotalLength(rest[..k]) {
      assert queue[..k + 1][1..] == rest[..k];
    }
    if EmptyTooSoon(queue, n) {
      var k :| 0 <= k < |queue| && queue[k] == [] && TotalLength(queue[..k]) < n;
      assert rest[k - 1] == [] && TotalLength(queue[..k - 1 + 1]) == |queue[0]| + TotalLength(rest[..k - 1]);
    }
    if |queue[0]| < n && EmptyTooSoon(rest, n - |queue[0]|) {
      var k :| 0 <= k < |rest| && rest[k] == [] && TotalLength(rest[..k]) < n - |queue[0]|;
      assert queue[k + 1] == [];
    }
  }

  /** After a clean session and a header that no digit lengthens, the listener gives up there
      exactly when an empty datagram comes before the announced bytes are there. */
  lemma FailsIff(prev: Bytes, messages: seq<Bytes>, n: nat, queue: seq<Bytes>)
    requires forall i :: 0 <= i < |messages| ==> |messages[i]| <= MAX_LENGTH
    requires CleanSession(prev, messages) && 0 < n <= MAX_LENGTH && |Header(n)| < LOC_MSG_BUF_LEN
    requires !IsDigit(Resize(Left(prev, messages), LOC_MSG_BUF_LEN)[|Header(n)|])
    ensures Listen(prev, Session(messages) + ([Header(n)] + queue)) == Outcome(messages, false, true)
       <==> EmptyTooSoon(queue, n)
  {
    AfterSession(prev, messages, [Header(n)] + queue);
    var msgLen := HeaderIsRead(Left(prev, messages), n, queue);
    FillFailsIff([], n, queue);
    NothingPrepended(messages, Listen(Left(prev, messages), [Header(n)] + queue), false, true);
  }

  /** Between messages an empty datagram is as if it had not been sent. */
  lemma EmptyIsSkipped(prev: Bytes, messages: seq<Bytes>, more: seq<Bytes>)
    requires forall i :: 0 <= i < |messages| ==> |messages[i]| <= MAX_LENGTH
    requires CleanSession(prev, messages)
    ensures Listen(prev, Session(messages) + ([[]] + more)) == Listen(prev, Session(messages) + more)
  {
    AfterSession(prev, messages, [[]] + more);
    AfterSession(prev, messages, more);
    var left := Left(prev, messages);
    var buf := Overlay(Resize(left, LOC_MSG_BUF_LEN), []);
    assert buf == Resize(left, LOC_MSG_BUF_LEN) && Resize(buf, LOC_MSG_BUF_LEN) == buf;
    assert ([[]] + more)[1..] == more && ([[]] + more)[0] == [];
    assert Listen(left, [[]] + more) == Listen(buf, more);
    SameBuffer(buf, left, more);
  }

  /** Only the resized buffer matters. */
  lemma SameBuffer(a: Bytes, b: Bytes, queue: seq<Bytes>)
    requires Resize(a, LOC_MSG_BUF_LEN) == Resize(b, LOC_MSG_BUF_LEN)
    ensures Listen(a, queue) == Listen(b, queue)
  {
  }

  lemma TwoMessages(a: Bytes, b: Bytes)
    ensures Session([a, b]) == Fragments(a) + Fragments(b)
  {
    assert [a, b][1..] == [b] && [b][1..] == [];
    assert Session([b]) == Fragments(b) + Session([]);
    assert Fragments(b) + [] == Fragments(b);
  }

  /** Without the condition messages are lost: every long message is lost behind a short one
      that leaves a digit where its header ends, though each is clean on its own. */
  lemma StaleDigitLosesMessage(data: Bytes) returns (prev: Bytes)
    requires LOC_MSG_BUF_LEN < |data| <= MAX_LENGTH
    ensures |prev| <= LOC_MSG_BUF_LEN && Clean([], prev) && Clean([], data)
    ensures Listen([], Session([prev, data])).received == [prev]
  {
    HeaderIsShort(|data|);
    prev := seq(|Header(|data|)| + 1, i => 48);
    assert prev[0] == 48;
    FirstByteDiffers(prev, LOC_MSG_ABORT);
    FirstByteDiffers(prev, LOC_MSG_HEAD);
    FreshListener(prev);
    FreshListener(data);
    TwoMessages(prev, data);
    ShortMessage([], prev, Fragments(data));
    LongMessage(prev, data, []);
  }

  // ---------- The listener ----------

  class LocIpcListener {
    var msg: Bytes
    var received: seq<Bytes>
    var stopRequested: bool
    var gaveUp: bool

    constructor ()
      ensures msg == [] && received == [] && !stopRequested && !gaveUp
    {
      msg, received, stopRequested, gaveUp := [], [], false, false;
    }

    /** The inner loop: the buffer gets the announced length and is filled from the front. */
    method ReadLong(msgLen: nat, queue: seq<Bytes>) returns (outcome: ReadOutcome, socket: seq<Bytes>)
      modifies this`msg
      ensures |socket| <= |queue|
      ensures outcome == Done <==> Fill([], msgLen, queue).Filled?
      ensures outcome == Done ==> Fill([], msgLen, queue) == Filled(msg, socket)
      ensures outcome == Starved <==> Fill([], msgLen, queue).Blocked?
    {
      msg := Resize(msg, msgLen);
      socket := queue;
      var msgLenReceived := 0;
      var nBytes := 1;  // positive: the header was read
      while msgLenReceived < msgLen && nBytes > 0
        invariant 0 <= msgLenReceived <= msgLen == |msg| && |socket| <= |queue|
        invariant nBytes > 0 ==> Fill(msg[..msgLenReceived], msgLen, socket) == Fill([], msgLen, queue)
        invariant nBytes == 0 ==> Fill([], msgLen, queue) == Failed
        decreases |socket|, nBytes
      {
        if socket == [] {
          return Starved, socket;
        }
        nBytes := Min(|socket[0]|, msgLen - msgLenReceived);
        ghost var had := msg[..msgLenReceived];
        msg := msg[..msgLenReceived] + socket[0][..nBytes] + msg[msgLenReceived + nBytes..];
        msgLenReceived := msgLenReceived + nBytes;
        assert msg[..msgLenReceived] == had + socket[0][..nBytes];
        socket := socket[1..];
      }
      assert msg[..msgLen] == msg;
      outcome := if nBytes > 0 then Done else Broken;
    }

    /** One turn of the receive loop: reads the next message, however many datagrams it has. */
    method Turn(queue: seq<Bytes>) returns (waiting: bool, socket: seq<Bytes>)
      requires queue != [] && !stopRequested && !gaveUp
      modifies this
      ensures |socket| < |queue|
      ensures waiting ==> !stopRequested && !gaveUp
      ensures After(received, stopRequested, gaveUp, waiting, msg, socket)
           == After(old(received), false, false, false, old(msg), queue)
    {
      waiting := false;
      msg := Overlay(Resize(msg, LOC_MSG_BUF_LEN), queue[0]);
      var nBytes := Min(|queue[0]|, LOC_MSG_BUF_LEN);
      socket := queue[1..];
      if nBytes > 0 {
        if StartsWith(msg, LOC_MSG_ABORT) {
          PrependNothing(received, true, false);
          stopRequested := true;
        } else if !StartsWith(msg, LOC_MSG_HEAD) {
          msg := Resize(msg, nBytes);
          PrependDelivered(received, msg, Listen(msg, socket));
          received := received + [msg];
        } else {
          waiting, socket := ReadAnnounced(ScanSize(msg[|LOC_MSG_HEAD|..]), socket);
        }
      }
    }

    /** The rest of the turn when the datagram was a header. */
    method ReadAnnounced(msgLen: nat, queue: seq<Bytes>) returns (waiting: bool, socket: seq<Bytes>)
      requires !stopRequested && !gaveUp
      modifies this
      ensures |socket| <= |queue|
      ensures waiting ==> !stopRequested && !gaveUp
      ensures After(received, stopRequested, gaveUp, waiting, msg, socket)
           == Prepend(old(received), ListenAfter(Fill([], msgLen, queue)))
    {
      var outcome;
      outcome, socket := ReadLong(msgLen, queue);
      waiting := outcome == Starved;
      if outcome == Done {
        PrependDelivered(received, msg, Listen(msg, socket));
        received := received + [msg];
      } else if outcome == Broken {
        gaveUp := true;
      }
    }

    /** The receive loop on a socket that holds `queue`, until it would wait or ends. */
    method StartListeningBlocking(queue: seq<Bytes>)
      requires received == [] && !stopRequested && !gaveUp
      modifies this
      ensures Outcome(received, stopRequested, gaveUp) == Listen(old(msg), queue)
    {
      var socket, waiting := queue, false;
      ghost var outcome := Listen(msg, queue);
      while socket != [] && !stopRequested && !gaveUp && !waiting
        invariant After(received, stopRequested, gaveUp, waiting, msg, socket) == outcome
        invariant waiting ==> !stopRequested && !gaveUp
        decreases |socket|
      {
        waiting, socket := Turn(socket);
      }
    }
  }

  datatype ReadOutcome = Done | Starved | Broken

  /** What the listener will have delivered in the end, from where it is. */
  ghost function After(received: seq<Bytes>, stopped: bool, gaveUp: bool, waiting: bool, msg: Bytes, socket: seq<Bytes>): Outcome {
    if stopped || gaveUp || waiting then Outcome(received, stopped, gaveUp)
    else Prepend(received, Listen(msg, socket))
  }

  function Prepend(received: seq<Bytes>, o: Outcome): Outcome {
    o.(received := received + o.received)
  }

  lemma PrependDelivered(received: seq<Bytes>, m: Bytes, o: Outcome)
    ensures Prepend(received, Deliver(m, o)) == Prepend(received + [m], o)
  {
    assert received + ([m] + o.received) == received + [m] + o.received;
  }

  lemma PrependNothing(received: seq<Bytes>, stopped: bool, failed: bool)
    ensures Prepend(received, Outcome([], stopped, failed)) == Outcome(received, stopped, failed)
  {
  }
}
