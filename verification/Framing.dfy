/** Length-prefixed messages on a byte stream. */
module Framing {
  import opened MeshTypes

  const U32_MODULUS: nat := 0x1_0000_0000

  /** The last `count` base-256 digits of `n`, most significant first. */
  function ToBigEndian(n: nat, count: nat): (b: Bytes)
    ensures |b| == count
    decreases count
  {
    if count == 0 then [] else ToBigEndian(n / 256, count - 1) + [n % 256]
  }

  function FromBigEndian(b: Bytes): (r: nat) {
    if b == [] then 0 else 256 * FromBigEndian(b[..|b| - 1]) + b[|b| - 1]
  }

  function Power256(count: nat): (r: nat) {
    if count == 0 then 1 else 256 * Power256(count - 1)
  }

  lemma {:induction false} BigEndianRoundTrip(n: nat, count: nat)
    requires n < Power256(count)
    ensures FromBigEndian(ToBigEndian(n, count)) == n
    decreases count
  {
    if count > 0 {
      BigEndianRoundTrip(n / 256, count - 1);
      var b := ToBigEndian(n, count);
      assert b[..count - 1] == ToBigEndian(n / 256, count - 1);
    }
  }

  /** And the other way round: every sequence of digits is written back as it was. */
  lemma {:induction false} DigitsRoundTrip(b: Bytes)
    ensures ToBigEndian(FromBigEndian(b), |b|) == b && FromBigEndian(b) < Power256(|b|)
    decreases |b|
  {
    if b != [] {
      var front, last := b[..|b| - 1], b[|b| - 1];
      DigitsRoundTrip(front);
      assert FromBigEndian(b) / 256 == FromBigEndian(front) && FromBigEndian(b) % 256 == last;
      assert b == front + [last];
    }
  }

  /** Four bytes, the most significant first. */
  lemma HeaderIsBigEndian(n: nat)
    requires n < U32_MODULUS
    ensures var b := ToBigEndian(n, 4);
            n == 0x100_0000 * (b[0] as int) + 0x1_0000 * (b[1] as int) + 0x100 * (b[2] as int) + (b[3] as int)
  {
    HeaderRoundTrip(n);
    var b := ToBigEndian(n, 4);
    assert b[..3][..2] == b[..2] && b[..2][..1] == b[..1] && b[..1][..0] == [];
    assert FromBigEndian(b[..1]) == b[0];
    assert FromBigEndian(b[..2]) == 256 * FromBigEndian(b[..1]) + b[1];
    assert FromBigEndian(b[..3]) == 256 * FromBigEndian(b[..2]) + b[2];
  }

  /** The header of a message that fits reads back as its length. */
  lemma HeaderRoundTrip(n: nat)
    requires n < U32_MODULUS
    ensures FromBigEndian(ToBigEndian(n, 4)) == n
  {
    assert Power256(4) == U32_MODULUS by {
      assert Power256(1) == 256 && Power256(2) == 0x1_0000 && Power256(3) == 0x100_0000;
    }
    BigEndianRoundTrip(n, 4);
  }

  /** The header holds the length cast to 32 bits; the body follows whole. */
  function Frame(msg: Bytes): (r: Bytes) {
    ToBigEndian(|msg| % U32_MODULUS, 4) + msg
  }

  function FrameAll(msgs: seq<Bytes>): (r: Bytes) {
    if msgs == [] then [] else Frame(msgs[0]) + FrameAll(msgs[1..])
  }

  /** A frame is four bytes of length, reduced to 32 bits, and the whole message, however long. */
  lemma FrameLayout(msg: Bytes)
    ensures |Frame(msg)| == 4 + |msg| && Frame(msg)[4..] == msg
    ensures FromBigEndian(Frame(msg)[..4]) == |msg| % 0x1_0000_0000
  {
    assert Frame(msg)[..4] == ToBigEndian(|msg| % U32_MODULUS, 4);
    HeaderRoundTrip(|msg| % U32_MODULUS);
  }

  /** A message, the end of the stream, or a stream that ended inside a message. */
  datatype Received = Got(msg: Bytes) | Closed | Broken

  /** What one receive takes from the unread bytes of a finished stream, and what it leaves. */
  function Receive(unread: Bytes): (r: (Received, Bytes)) {
    if |unread| < 4 then (Closed, [])
    else
      var len := FromBigEndian(unread[..4]);
      if |unread| - 4 < len then (Broken, [])
      else (Got(unread[4..4 + len]), unread[4 + len..])
  }

  /** Receiving until the stream ends or breaks. */
  function ReceiveAll(unread: Bytes): (r: (seq<Bytes>, Received))
    decreases |unread|
  {
    var (r, rest) := Receive(unread);
    if r.Got? then
      var (msgs, end) := ReceiveAll(rest);
      ([r.msg] + msgs, end)
    else ([], r)
  }

  /** The stream begins with a whole frame. */
  ghost predicate StartsWithFrame(stream: Bytes) {
    exists msg, rest :: IsFrameAnd(stream, msg, rest)
  }

  ghost predicate IsFrameAnd(stream: Bytes, msg: Bytes, rest: Bytes) {
    |msg| < 0x1_0000_0000 && stream == Frame(msg) + rest
  }

  /** On any stream whatever: the first frame is taken off whole, and only if it is there. */
  lemma ReceiveTakesOneFrame(stream: Bytes)
    ensures var (r, rest) := Receive(stream);
            && (r.Got? <==> StartsWithFrame(stream))
            && (r.Got? ==> IsFrameAnd(stream, r.msg, rest))
            && (r.Closed? <==> |stream| < 4)
            && (!r.Got? ==> rest == [])
  {
    if Receive(stream).0.Got? {
      GotIsFrame(stream);
    }
    if msg, rest :| IsFrameAnd(stream, msg, rest) {
      FrameRoundTripIff(msg, rest);
    }
  }

  lemma GotIsFrame(stream: Bytes)
    requires Receive(stream).0.Got?
    ensures IsFrameAnd(stream, Receive(stream).0.msg, Receive(stream).1)
  {
    var len := FromBigEndian(stream[..4]);
    var msg, rest := stream[4..4 + len], stream[4 + len..];
    FrameOfHeader(stream[..4], msg);
    CutInThree(stream, 4, 4 + len);
  }

  lemma CutInThree(b: Bytes, i: nat, j: nat)
    requires i <= j <= |b|
    ensures b == b[..i] + b[i..j] + b[j..]
  {
  }

  lemma FrameOfHeader(header: Bytes, msg: Bytes)
    requires |header| == 4 && FromBigEndian(header) == |msg|
    ensures Frame(msg) == header + msg && |msg| < U32_MODULUS
  {
    HeaderOfLength(header);
    FitsAsIs(|msg|);
  }

  lemma FitsAsIs(n: nat)
    requires n < U32_MODULUS
    ensures n % U32_MODULUS == n
  {
  }

  lemma HeaderOfLength(header: Bytes)
    requires |header| == 4
    ensures FromBigEndian(header) < U32_MODULUS && ToBigEndian(FromBigEndian(header), 4) == header
  {
    assert Power256(4) == U32_MODULUS by {
      assert Power256(1) == 256 && Power256(2) == 0x1_0000 && Power256(3) == 0x100_0000;
    }
    DigitsRoundTrip(header);
  }

  class QuicConnection {
    var connected: bool
    // bytes written to the send stream
    var written: Bytes
    // bytes not yet read from the receive stream, which the peer has finished
    var unread: Bytes

    constructor (unread: Bytes)
      ensures connected && written == [] && this.unread == unread
    {
      connected, written, this.unread := true, [], unread;
    }

    method Send(data: Bytes) returns (ok: bool)
      modifies this`written
      ensures ok == connected
      ensures written == if ok then old(written) + Frame(data) else old(written)
      ensures ok ==> |written| == |old(written)| + 4 + |data| && written[|old(written)| + 4..] == data
    {
      if !connected {
        return false;
      }
      var len := ToBigEndian(|data| % U32_MODULUS, 4);
      written := written + len;
      written := written + data;
      ok := true;
    }

    method Recv() returns (r: Received)
      modifies this`unread
      ensures !connected ==> r == Closed && unread == old(unread)
      ensures connected ==> (r, unread) == Receive(old(unread))
    {
      if !connected {
        return Closed;
      }
      if |unread| < 4 {
        unread := [];
        return Closed;
      }
      var lenBuf := unread[..4];
      unread := unread[4..];
      var len := FromBigEndian(lenBuf);
      if |unread| < len {
        unread := [];
        return Broken;
      }
      var data := unread[..len];
      assert data == old(unread)[4..4 + len] && unread[len..] == old(unread)[4 + len..];
      unread := unread[len..];
      r := Got(data);
    }

    /** The session's receive loop, which ends with the stream. */
    method Drain() returns (msgs: seq<Bytes>, end: Received)
      requires connected
      modifies this`unread
      ensures (msgs, end) == ReceiveAll(old(unread))
    {
      msgs := [];
      assert [] + ReceiveAll(unread).0 == ReceiveAll(unread).0;
      while true
        invariant ReceiveAll(old(unread)) == (msgs + ReceiveAll(unread).0, ReceiveAll(unread).1)
        decreases |unread|
      {
        ghost var before := unread;
        var r := Recv();
        if !r.Got? {
          assert msgs + [] == msgs;
          return msgs, r;
        }
        assert msgs + ([r.msg] + ReceiveAll(unread).0) == msgs + [r.msg] + ReceiveAll(unread).0;
        assert ReceiveAll(before).0 == [r.msg] + ReceiveAll(unread).0;
        msgs := msgs + [r.msg];
      }
    }
  }

  /** A frame gives back its message exactly when the length fits the header. */
  lemma FrameRoundTripIff(msg: Bytes, rest: Bytes)
    ensures Receive(Frame(msg) + rest) == (Got(msg), rest) <==> |msg| < U32_MODULUS
  {
    var len := |msg| % U32_MODULUS;
    var stream := Frame(msg) + rest;
    assert stream[..4] == ToBigEndian(len, 4);
    HeaderRoundTrip(len);
    if |msg| < U32_MODULUS {
      assert stream[4..4 + len] == msg && stream[4 + len..] == rest;
    } else {
      assert |stream[4..4 + len]| < |msg|;
    }
  }

  ghost predicate AllFit(msgs: seq<Bytes>) {
    forall m | m in msgs :: |m| < U32_MODULUS
  }

  /** How many of the messages lie entirely within the first `k` bytes of their frames. */
  function Contained(msgs: seq<Bytes>, k: nat): (n: nat)
    ensures n <= |msgs|
  {
    if msgs == [] || k < |Frame(msgs[0])| then 0
    else 1 + Contained(msgs[1..], k - |Frame(msgs[0])|)
  }

  /** `Contained` counts what it says. */
  lemma {:induction false} ContainedIsExact(msgs: seq<Bytes>, k: nat)
    ensures var n := Contained(msgs, k);
            |FrameAll(msgs[..n])| <= k && (n < |msgs| ==> k < |FrameAll(msgs[..n + 1])|)
    decreases |msgs|
  {
    var n := Contained(msgs, k);
    if msgs != [] {
      if k < |Frame(msgs[0])| {
        assert msgs[..1][1..] == [];
      } else {
        ContainedIsExact(msgs[1..], k - |Frame(msgs[0])|);
        assert msgs[..n][1..] == msgs[1..][..n - 1];
        assert n < |msgs| ==> msgs[..n + 1][1..] == msgs[1..][..n];
      }
    }
  }

  /** Where the stream was cut decides how it ends. */
  function EndAfter(msgs: seq<Bytes>, k: nat): (r: Received) {
    if k - |FrameAll(msgs[..Contained(msgs, k)])| < 4 then Closed else Broken
  }

  lemma EndOfTail(msgs: seq<Bytes>, k: nat)
    requires msgs != [] && |Frame(msgs[0])| <= k
    ensures EndAfter(msgs, k) == EndAfter(msgs[1..], k - |Frame(msgs[0])|)
  {
    var n := Contained(msgs, k);
    assert msgs[..n][1..] == msgs[1..][..n - 1];
  }

  /** What decoding the first `k` bytes of the frames of `msgs` must yield. */
  ghost predicate DecodesTo(stream: Bytes, msgs: seq<Bytes>, k: nat) {
    ReceiveAll(stream) == (msgs[..Contained(msgs, k)], EndAfter(msgs, k))
  }

  lemma CutInFirst(msgs: seq<Bytes>, k: nat)
    requires msgs != [] && |msgs[0]| < U32_MODULUS && k < |Frame(msgs[0])|
    ensures DecodesTo(Frame(msgs[0])[..k], msgs, k)
  {
    PartialFrame(msgs[0], k);
    assert msgs[..0] == [];
  }

  lemma CutLater(msgs: seq<Bytes>, tail: Bytes, k: nat)
    requires msgs != [] && |msgs[0]| < U32_MODULUS && |Frame(msgs[0])| <= k
    requires DecodesTo(tail, msgs[1..], k - |Frame(msgs[0])|)
    ensures DecodesTo(Frame(msgs[0]) + tail, msgs, k)
  {
    FirstOfMany(msgs[0], tail);
    EndOfTail(msgs, k);
    var n := Contained(msgs, k);
    assert msgs[..n] == [msgs[0]] + msgs[1..][..n - 1];
  }

  /**
   * Decoding any prefix of the frames yields exactly the fully contained messages; then the stream
   * counts as closed if it was cut at a boundary or inside a header, and as broken if cut in a body.
   */
  lemma {:induction false} PrefixDecoding(msgs: seq<Bytes>, k: nat)
    requires AllFit(msgs) && k <= |FrameAll(msgs)|
    ensures DecodesTo(FrameAll(msgs)[..k], msgs, k)
    decreases |msgs|
  {
    if msgs != [] {
      var f, rest := Frame(msgs[0]), FrameAll(msgs[1..]);
      assert |msgs[0]| < U32_MODULUS by { assert msgs[0] in msgs; }
      if k < |f| {
        CutInFirst(msgs, k);
        assert (f + rest)[..k] == f[..k];
      } else {
        PrefixDecoding(msgs[1..], k - |f|);
        CutLater(msgs, rest[..k - |f|], k);
        TakeFrame(f, rest, k);
      }
    }
  }

  lemma TakeFrame(f: Bytes, rest: Bytes, k: nat)
    requires |f| <= k <= |f| + |rest|
    ensures (f + rest)[..k] == f + rest[..k - |f|]
  {
  }

  lemma FirstOfMany(msg: Bytes, rest: Bytes)
    requires |msg| < U32_MODULUS
    ensures ReceiveAll(Frame(msg) + rest) == ([msg] + ReceiveAll(rest).0, ReceiveAll(rest).1)
  {
    FrameRoundTripIff(msg, rest);
  }

  lemma PartialFrame(msg: Bytes, k: nat)
    requires |msg| < U32_MODULUS && k < |Frame(msg)|
    ensures Receive(Frame(msg)[..k]).0 == if k < 4 then Closed else Broken
  {
    var cut, header := Frame(msg)[..k], ToBigEndian(|msg| % U32_MODULUS, 4);
    if k >= 4 {
      assert |msg| % U32_MODULUS == |msg|;
      assert cut[..4] == header;
      assert FromBigEndian(cut[..4]) == |msg| by { HeaderRoundTrip(|msg|); }
      assert |cut| - 4 < |msg|;
    }
  }

  /** A message too long for the header comes back shorter, however the stream goes on. */
  lemma LongMessageIsCut(msg: Bytes, rest: Bytes)
    requires |msg| >= U32_MODULUS
    ensures var got := ReceiveAll(Frame(msg) + rest).0; got != [] && |got[0]| < |msg|
  {
    var len := |msg| % U32_MODULUS;
    var stream := Frame(msg) + rest;
    assert stream[..4] == ToBigEndian(len, 4);
    HeaderRoundTrip(len);
  }

  lemma {:induction false} RoundTripMeansFit(msgs: seq<Bytes>)
    requires ReceiveAll(FrameAll(msgs)).0 == msgs
    ensures AllFit(msgs)
    decreases |msgs|
  {
    if msgs != [] {
      var rest := FrameAll(msgs[1..]);
      if |msgs[0]| >= U32_MODULUS {
        LongMessageIsCut(msgs[0], rest);
      } else {
        FirstOfMany(msgs[0], rest);
        assert msgs[1..] == ([msgs[0]] + ReceiveAll(rest).0)[1..] == ReceiveAll(rest).0;
        RoundTripMeansFit(msgs[1..]);
      }
    }
  }

  /** The whole stream gives back the whole list exactly when every length fits its header. */
  lemma StreamRoundTripIff(msgs: seq<Bytes>)
    ensures ReceiveAll(FrameAll(msgs)) == (msgs, Closed) <==> AllFit(msgs)
  {
    if AllFit(msgs) {
      var k := |FrameAll(msgs)|;
      PrefixDecoding(msgs, k);
      ContainsAll(msgs);
      assert FrameAll(msgs)[..k] == FrameAll(msgs) && msgs[..|msgs|] == msgs;
    } else if ReceiveAll(FrameAll(msgs)).0 == msgs {
      RoundTripMeansFit(msgs);
    }
  }

  lemma {:induction false} ContainsAll(msgs: seq<Bytes>)
    ensures Contained(msgs, |FrameAll(msgs)|) == |msgs|
    decreases |msgs|
  {
    if msgs != [] {
      ContainsAll(msgs[1..]);
    }
  }

  function Zeros(n: nat): (b: Bytes)
    ensures |b| == n
  {
    seq(n, _ => 0)
  }

  lemma CutInHeader(stream: Bytes) returns (msg: Bytes)
    requires |stream| < 4
    ensures |msg| < U32_MODULUS && stream <= Frame(msg)
  {
    var header := stream + Zeros(4 - |stream|);
    msg := Zeros(FromBigEndian(header));
    FrameOfHeader(header, msg);
    assert stream <= header && header <= header + msg;
  }

  lemma CutInBody(header: Bytes, body: Bytes) returns (msg: Bytes)
    requires |header| == 4 && |body| <= FromBigEndian(header)
    ensures |msg| < U32_MODULUS && header + body <= Frame(msg)
  {
    msg := body + Zeros(FromBigEndian(header) - |body|);
    FrameOfHeader(header, msg);
    PrefixOfBoth(header, body, msg);
  }

  lemma PrefixOfBoth(a: Bytes, b: Bytes, c: Bytes)
    requires b <= c
    ensures a + b <= a + c
  {
  }

  /** A stream that does not begin with a whole frame is the beginning of one. */
  lemma BrokenFrameIsCut(stream: Bytes) returns (msg: Bytes)
    requires !Receive(stream).0.Got?
    ensures |msg| < U32_MODULUS && stream <= Frame(msg)
  {
    if |stream| < 4 {
      msg := CutInHeader(stream);
    } else {
      msg := CutInBody(stream[..4], stream[4..]);
      assert stream == stream[..4] + stream[4..];
    }
  }

  /**
   * Every stream of bytes is some list of frames cut off somewhere, so that `PrefixDecoding` says what
   * is received from it.
   */
  lemma {:induction false} EveryStreamIsCutFrames(stream: Bytes) returns (msgs: seq<Bytes>)
    ensures AllFit(msgs) && stream <= FrameAll(msgs)
    ensures DecodesTo(stream, msgs, |stream|)
    decreases |stream|
  {
    var (r, rest) := Receive(stream);
    ReceiveTakesOneFrame(stream);
    if r.Got? {
      var more := EveryStreamIsCutFrames(rest);
      msgs := [r.msg] + more;
      assert msgs[1..] == more;
    } else {
      var msg := BrokenFrameIsCut(stream);
      msgs := [msg];
      assert msgs[1..] == [] && FrameAll(msgs) == Frame(msg) + [];
    }
    PrefixDecoding(msgs, |stream|);
    assert FrameAll(msgs)[..|stream|] == stream;
  }
}
