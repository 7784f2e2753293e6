/** The frame-decoding loop of the demo's WebSocket client (section 5.2 of RFC 6455). */
module Frames {

  type Byte = b: int | 0 <= b < 256

  type Bytes = seq<Byte>

  const TEXT := 1
  const CLOSE := 8

  /** The frame at the front of a buffer, if all of it is there. */
  datatype Parsed = Incomplete | Frame(opcode: nat, payload: Bytes, rest: Bytes)

  /** `struct.unpack` of an unsigned big-endian number. */
  function BigEndian(bs: Bytes): nat {
    if bs == [] then 0 else 256 * BigEndian(bs[..|bs| - 1]) + bs[|bs| - 1]
  }

  function Cut(buf: Bytes, opcode: nat, offset: nat, length: nat): Parsed {
    if |buf| < offset + length then Incomplete
    else Frame(opcode, buf[offset..offset + length], buf[offset + length..])
  }

  function NextFrame(buf: Bytes): Parsed {
    if |buf| < 2 then Incomplete else
    var opcode, length := buf[0] % 16, buf[1] % 128;
    if length == 126 then
      if |buf| < 4 then Incomplete else Cut(buf, opcode, 4, BigEndian(buf[2..4]))
    else if length == 127 then
      if |buf| < 10 then Incomplete else Cut(buf, opcode, 10, BigEndian(buf[2..10]))
    else Cut(buf, opcode, 2, length)
  }

  lemma NextFrameShrinks(buf: Bytes)
    ensures NextFrame(buf).Frame? ==> |NextFrame(buf).rest| < |buf|
  {}

  /** Text payloads in order, the bytes left over, and whether a close frame ended the loop. */
  datatype Decoded = Decoded(payloads: seq<Bytes>, rest: Bytes, closed: bool)

  function Decode(buf: Bytes): Decoded
    decreases |buf|
  {
    match NextFrame(buf)
    case Incomplete => Decoded([], buf, false)
    case Frame(opcode, payload, rest) =>
      NextFrameShrinks(buf);
      if opcode == CLOSE then Decoded([], rest, true)
      else
        var d := Decode(rest);
        if opcode == TEXT then Decoded([payload] + d.payloads, d.rest, d.closed) else d
  }

  lemma DecodeOne(buf: Bytes, opcode: nat, payload: Bytes, rest: Bytes)
    requires NextFrame(buf) == Frame(opcode, payload, rest)
    ensures |rest| < |buf|
    ensures opcode == CLOSE ==> Decode(buf) == Decoded([], rest, true)
    ensures opcode == TEXT ==> Decode(buf) == Decode(rest).(payloads := [payload] + Decode(rest).payloads)
    ensures opcode != CLOSE && opcode != TEXT ==> Decode(buf) == Decode(rest)
  {
    NextFrameShrinks(buf);
  }

  lemma DecodeNone(buf: Bytes)
    requires NextFrame(buf) == Incomplete
    ensures Decode(buf) == Decoded([], buf, false)
  {}

  /** `d` with payloads already collected put in front. */
  function Before(payloads: seq<Bytes>, d: Decoded): Decoded {
    d.(payloads := payloads + d.payloads)
  }

  lemma BeforeText(done: seq<Bytes>, payload: Bytes, d: Decoded)
    ensures Before(done, d.(payloads := [payload] + d.payloads)) == Before(done + [payload], d)
    ensures Before(done, d.(payloads := [])) == d.(payloads := done)
    ensures Before([], d) == d
  {
    assert done + ([payload] + d.payloads) == (done + [payload]) + d.payloads;
    assert done + [] == done;
    assert [] + d.payloads == d.payloads;
  }

  /** The payloads that are messages; `parses` says which are JSON, and the others are dropped. */
  function Messages(payloads: seq<Bytes>, parses: Bytes -> bool): seq<Bytes> {
    if payloads == [] then []
    else
      var before, last := Messages(payloads[..|payloads| - 1], parses), payloads[|payloads| - 1];
      if parses(last) then before + [last] else before
  }

  lemma {:induction false} MessagesAppend(a: seq<Bytes>, b: seq<Bytes>, parses: Bytes -> bool)
    ensures Messages(a + b, parses) == Messages(a, parses) + Messages(b, parses)
    decreases |b|
  {
    if b == [] {
      assert a + b == a;
    } else {
      assert (a + b)[..|a + b| - 1] == a + b[..|b| - 1];
      MessagesAppend(a, b[..|b| - 1], parses);
    }
  }

  lemma OneMessage(a: seq<Bytes>, payload: Bytes, parses: Bytes -> bool)
    ensures Messages(a + [payload], parses) == if parses(payload) then Messages(a, parses) + [payload] else Messages(a, parses)
  {
    assert (a + [payload])[..|a|] == a;
  }

  /** The loop itself. */
  method DecodeFrames(input: Bytes, parses: Bytes -> bool) returns (messages: seq<Bytes>, buf: Bytes, closed: bool)
    ensures messages == Messages(Decode(input).payloads, parses)
    ensures buf == Decode(input).rest && closed == Decode(input).closed
  {
    hide BigEndian, Decode, Before, Messages;
    messages, buf, closed := [], input, false;
    ghost var payloads: seq<Bytes> := [];
    NoMessages(parses);
    BeforeText([], [], Decode(buf));
    while |buf| >= 2
      invariant !closed
      invariant Decode(input) == Before(payloads, Decode(buf))
      invariant messages == Messages(payloads, parses)
      decreases |buf|
    {
      ghost var before := buf;
      var opcode, length, offset: nat := buf[0] % 16, buf[1] % 128, 2;
      if length == 126 {
        if |buf| < 4 {
          break;
        }
        length, offset := BigEndian(buf[2..4]), 4;
      } else if length == 127 {
        if |buf| < 10 {
          break;
        }
        length, offset := BigEndian(buf[2..10]), 10;
      }
      if |buf| < offset + length {
        break;
      }
      var payload := buf[offset..offset + length];
      buf := buf[offset + length..];
      DecodeOne(before, opcode, payload, buf);
      BeforeText(payloads, payload, Decode(buf));
      if opcode == TEXT {
        OneMessage(payloads, payload, parses);
        if parses(payload) {
          messages := messages + [payload];
        }
        payloads := payloads + [payload];
      } else if opcode == CLOSE {
        closed := true;
        BeforeText(payloads, payload, Decode(before));
        return;
      }
    }
    DecodeNone(buf);
    BeforeText(payloads, [], Decode(buf));
  }

  lemma NoMessages(parses: Bytes -> bool)
    ensures Messages([], parses) == []
  {}

  // ---------------------------------------------------------------------------
  // Chunks
  // ---------------------------------------------------------------------------

  lemma CutStable(a: Bytes, b: Bytes, opcode: nat, offset: nat, length: nat)
    requires Cut(a, opcode, offset, length).Frame?
    ensures Cut(a + b, opcode, offset, length)
         == Frame(opcode, Cut(a, opcode, offset, length).payload, Cut(a, opcode, offset, length).rest + b)
  {
    var end := offset + length;
    assert (a + b)[offset..end] == a[offset..end];
    assert (a + b)[end..] == a[end..] + b;
  }

  lemma SliceStable(a: Bytes, b: Bytes, n: nat)
    requires 2 <= n <= |a|
    ensures (a + b)[2..n] == a[2..n]
  {}

  /** Bytes that arrive later do not change a frame that is already complete. */
  lemma FrameStable(a: Bytes, b: Bytes)
    requires NextFrame(a).Frame?
    ensures var f := NextFrame(a);
            NextFrame(a + b) == Frame(f.opcode, f.payload, f.rest + b)
  {
    var c := a + b;
    assert c[0] == a[0] && c[1] == a[1];
    var opcode, length := a[0] % 16, a[1] % 128;
    hide Cut, BigEndian;
    if length == 126 {
      SliceStable(a, b, 4);
      CutStable(a, b, opcode, 4, BigEndian(a[2..4]));
    } else if length == 127 {
      SliceStable(a, b, 10);
      CutStable(a, b, opcode, 10, BigEndian(a[2..10]));
    } else {
      CutStable(a, b, opcode, 2, length);
    }
  }

  /** Decoding in two goes is decoding at once: what `a` leaves over is carried into the next chunk,
      and nothing after a close frame is read. */
  lemma {:induction false} ChunksDoNotMatter(a: Bytes, b: Bytes)
    ensures var d, e := Decode(a), Decode(Decode(a).rest + b);
            Decode(a + b) == if d.closed then Decoded(d.payloads, d.rest + b, true)
                             else Decoded(d.payloads + e.payloads, e.rest, e.closed)
    decreases |a|
  {
    hide NextFrame, Decode;
    match NextFrame(a) {
      case Incomplete =>
        DecodeNone(a);
        assert [] + Decode(a + b).payloads == Decode(a + b).payloads;
      case Frame(opcode, payload, rest) =>
        FrameStable(a, b);
        DecodeOne(a, opcode, payload, rest);
        DecodeOne(a + b, opcode, payload, rest + b);
        if opcode != CLOSE {
          ChunksDoNotMatter(rest, b);
          if opcode == TEXT && !Decode(a).closed {
            var e := Decode(Decode(a).rest + b);
            assert [payload] + (Decode(rest).payloads + e.payloads) == ([payload] + Decode(rest).payloads) + e.payloads;
          }
        }
    }
  }

  function Concat(chunks: seq<Bytes>): Bytes {
    if chunks == [] then [] else Concat(chunks[..|chunks| - 1]) + chunks[|chunks| - 1]
  }

  /** How far the receive loop got: `n` chunks read after the handshake's remainder. */
  ghost predicate Reading(first: Bytes, chunks: seq<Bytes>, n: nat, payloads: seq<Bytes>, buf: Bytes, closed: bool)
    requires n <= |chunks|
  {
    Decode(first + Concat(chunks[..n])) == Decoded(payloads, buf, closed)
  }

  lemma ReadOne(first: Bytes, chunks: seq<Bytes>, n: nat, payloads: seq<Bytes>, buf: Bytes)
    requires n < |chunks| && Reading(first, chunks, n, payloads, buf, false)
    ensures var d := Decode(buf + chunks[n]);
            Reading(first, chunks, n + 1, payloads + d.payloads, d.rest, d.closed)
  {
    hide Decode;
    assert chunks[..n + 1][..n] == chunks[..n];
    var a := first + Concat(chunks[..n]);
    assert first + Concat(chunks[..n + 1]) == a + chunks[n];
    ChunksDoNotMatter(a, chunks[n]);
  }

  /** The receive loop goes on after `n` chunks: no close frame yet, and fewer messages than the limit. */
  predicate GoesOn(first: Bytes, chunks: seq<Bytes>, n: nat, parses: Bytes -> bool, limit: nat)
    requires n <= |chunks|
  {
    var d := Decode(first + Concat(chunks[..n]));
    !d.closed && |Messages(d.payloads, parses)| < limit
  }

  /** The receive loop. `chunks` is what successive `recv` calls return before the deadline, the
      socket's end or a timeout stops them; `n` of them are read. */
  method Collect(first: Bytes, chunks: seq<Bytes>, parses: Bytes -> bool, limit: nat) returns (messages: seq<Bytes>, n: nat)
    ensures n <= |chunks|
    ensures messages == if limit == 0 then [] else Messages(Decode(first + Concat(chunks[..n])).payloads, parses)
    ensures n == |chunks| || !GoesOn(first, chunks, n, parses, limit)
    ensures forall m :: 0 <= m < n ==> GoesOn(first, chunks, m, parses, limit)
  {
    hide *;
    messages, n := [], 0;
    if limit == 0 {
      LimitReached(first, chunks, parses);
      return;
    }
    var buf, closed;
    messages, buf, closed := DecodeFrames(first, parses);
    ghost var payloads := Decode(first).payloads;
    ReadFirst(first, chunks, payloads, buf, closed);
    while n < |chunks| && !closed && |messages| < limit
      invariant n <= |chunks|
      invariant Reading(first, chunks, n, payloads, buf, closed)
      invariant messages == Messages(payloads, parses)
      invariant forall m :: 0 <= m < n ==> GoesOn(first, chunks, m, parses, limit)
    {
      ReadingMeans(first, chunks, n, payloads, buf, closed, parses, limit);
      ReadOne(first, chunks, n, payloads, buf);
      ghost var d := Decode(buf + chunks[n]);
      MessagesAppend(payloads, d.payloads, parses);
      var more;
      more, buf, closed := DecodeFrames(buf + chunks[n], parses);
      messages, payloads := messages + more, payloads + d.payloads;
      n := n + 1;
    }
    ReadingMeans(first, chunks, n, payloads, buf, closed, parses, limit);
  }

  lemma LimitReached(first: Bytes, chunks: seq<Bytes>, parses: Bytes -> bool)
    ensures !GoesOn(first, chunks, 0, parses, 0)
  {
    hide Decode, Concat, Messages;
  }

  lemma ReadFirst(first: Bytes, chunks: seq<Bytes>, payloads: seq<Bytes>, buf: Bytes, closed: bool)
    requires Decoded(payloads, buf, closed) == Decode(first)
    ensures Reading(first, chunks, 0, payloads, buf, closed)
  {
    hide Decode;
    assert chunks[..0] == [] && first + [] == first;
  }

  lemma ReadingMeans(first: Bytes, chunks: seq<Bytes>, n: nat, payloads: seq<Bytes>, buf: Bytes, closed: bool,
                     parses: Bytes -> bool, limit: nat)
    requires n <= |chunks| && Reading(first, chunks, n, payloads, buf, closed)
    ensures payloads == Decode(first + Concat(chunks[..n])).payloads
    ensures GoesOn(first, chunks, n, parses, limit) <==> !closed && |Messages(payloads, parses)| < limit
  {
    hide Decode, Concat, Messages;
  }

  // ---------------------------------------------------------------------------
  // Encoding: what a server sends
  // ---------------------------------------------------------------------------

  /** The three ways section 5.2 writes a payload length. */
  datatype Form = Short | Medium | Long

  /** An unmasked server frame; `high` is FIN and the reserved bits. */
  datatype ServerFrame = ServerFrame(high: nat, opcode: nat, payload: Bytes, form: Form)

  ghost predicate WellFormed(f: ServerFrame) {
    && f.high < 16 && f.opcode < 16
    && match f.form
       case Short => |f.payload| < 126
       case Medium => |f.payload| < 0x1_0000
       case Long => |f.payload| < 0x1_0000_0000_0000_0000
  }

  /** `n` as `k` big-endian bytes. */
  function ToBytes(n: nat, k: nat): (bs: Bytes)
    ensures |bs| == k
  {
    if k == 0 then [] else ToBytes(n / 256, k - 1) + [n % 256]
  }

  function Pow256(k: nat): nat { if k == 0 then 1 else 256 * Pow256(k - 1) }

  lemma {:induction false} BigEndianRound(n: nat, k: nat)
    requires n < Pow256(k)
    ensures BigEndian(ToBytes(n, k)) == n
  {
    if k > 0 {
      BigEndianRound(n / 256, k - 1);
      assert ToBytes(n, k)[..k - 1] == ToBytes(n / 256, k - 1);
    }
  }

  /** The first byte is the most significant. */
  lemma {:induction false} NetworkOrder(b: Byte, bs: Bytes)
    ensures BigEndian([b] + bs) == b * Pow256(|bs|) + BigEndian(bs)
  {
    var all := [b] + bs;
    if bs == [] {
      assert all[..0] == [];
    } else {
      var init := bs[..|bs| - 1];
      assert all[..|all| - 1] == [b] + init && all[|all| - 1] == bs[|bs| - 1];
      NetworkOrder(b, init);
      Regroup256(b, Pow256(|init|), BigEndian(init));
    }
  }

  lemma Regroup256(b: nat, p: nat, x: nat)
    ensures 256 * (b * p + x) == b * (256 * p) + 256 * x
  {}

  /** Section 5.7 of RFC 6455: the unmasked text frame of "Hello". */
  lemma HelloFrame()
    ensures Decode([0x81, 0x05, 0x48, 0x65, 0x6C, 0x6C, 0x6F]) == Decoded([[0x48, 0x65, 0x6C, 0x6C, 0x6F]], [], false)
  {
    var buf: Bytes := [0x81, 0x05, 0x48, 0x65, 0x6C, 0x6C, 0x6F];
    assert NextFrame(buf) == Frame(1, [0x48, 0x65, 0x6C, 0x6C, 0x6F], []);
    assert Decode([]) == Decoded([], [], false);
  }

  lemma Widths()
    ensures Pow256(2) == 0x1_0000 && Pow256(8) == 0x1_0000_0000_0000_0000
  {
    assert Pow256(4) == 0x1_0000_0000;
    assert Pow256(6) == 0x1_0000 * Pow256(4);
    assert Pow256(8) == 0x1_0000 * Pow256(6);
  }

  function Header(f: ServerFrame): Bytes
    requires f.high < 16 && f.opcode < 16 && (f.form == Short ==> |f.payload| < 126)
  {
    [f.high * 16 + f.opcode] +
    match f.form
    case Short => [|f.payload|]
    case Medium => [126] + ToBytes(|f.payload|, 2)
    case Long => [127] + ToBytes(|f.payload|, 8)
  }

  function Encode(f: ServerFrame): Bytes
    requires f.high < 16 && f.opcode < 16 && (f.form == Short ==> |f.payload| < 126)
  {
    Header(f) + f.payload
  }

  ghost predicate AllWellFormed(fs: seq<ServerFrame>) {
    forall i :: 0 <= i < |fs| ==> WellFormed(fs[i])
  }

  ghost function EncodeAll(fs: seq<ServerFrame>): Bytes
    requires AllWellFormed(fs)
  {
    if fs == [] then [] else Encode(fs[0]) + EncodeAll(fs[1..])
  }

  /** The text payloads before the first close frame. */
  function Texts(fs: seq<ServerFrame>): seq<Bytes> {
    if fs == [] || fs[0].opcode == 8 then []
    else if fs[0].opcode == 1 then [fs[0].payload] + Texts(fs[1..])
    else Texts(fs[1..])
  }

  /** The frames after the first close frame, if there is one. */
  function AfterClose(fs: seq<ServerFrame>): seq<ServerFrame> {
    if fs == [] then [] else if fs[0].opcode == 8 then fs[1..] else AfterClose(fs[1..])
  }

  ghost predicate HasClose(fs: seq<ServerFrame>) {
    exists i :: 0 <= i < |fs| && fs[i].opcode == 8
  }

  /** One encoded frame at the front of a buffer parses back to itself, whichever length form it uses. */
  lemma ParsesBack(f: ServerFrame, tail: Bytes)
    requires WellFormed(f)
    ensures NextFrame(Encode(f) + tail) == Frame(f.opcode, f.payload, tail)
  {
    Widths();
    hide BigEndian, ToBytes, Pow256;
    var buf, h := Encode(f) + tail, |Header(f)|;
    assert buf[0] == f.high * 16 + f.opcode;
    assert buf[0] % 16 == f.opcode;
    assert buf[h..h + |f.payload|] == f.payload;
    assert buf[h + |f.payload|..] == tail;
    match f.form {
      case Short =>
        assert buf[1] == |f.payload|;
      case Medium =>
        assert buf[1] == 126;
        assert buf[2..4] == ToBytes(|f.payload|, 2);
        BigEndianRound(|f.payload|, 2);
      case Long =>
        assert buf[1] == 127;
        assert buf[2..10] == ToBytes(|f.payload|, 8);
        BigEndianRound(|f.payload|, 8);
    }
  }

  lemma {:induction false} AfterCloseWellFormed(fs: seq<ServerFrame>)
    requires AllWellFormed(fs)
    ensures AllWellFormed(AfterClose(fs))
  {
    if fs != [] { AfterCloseWellFormed(fs[1..]); }
  }

  /** Decoding what a server sent: its text payloads up to the first close frame, stopping right
      after that frame, with nothing left when there is none. */
  lemma {:induction false} DecodesFrames(fs: seq<ServerFrame>)
    requires AllWellFormed(fs)
    ensures AllWellFormed(AfterClose(fs))
    ensures Decode(EncodeAll(fs)) == Decoded(Texts(fs), EncodeAll(AfterClose(fs)), HasClose(fs))
    ensures !HasClose(fs) ==> AfterClose(fs) == []
  {
    hide Encode, NextFrame, WellFormed;
    AfterCloseWellFormed(fs);
    if fs == [] {
      TooShort();
    } else {
      var f, more := fs[0], fs[1..];
      DecodesFrames(more);
      assert WellFormed(f);
      ParsesBack(f, EncodeAll(more));
      if f.opcode != CLOSE && HasClose(fs) {
        var i :| 0 <= i < |fs| && fs[i].opcode == 8;
        assert more[i - 1].opcode == CLOSE;
      }
      if HasClose(more) {
        var i :| 0 <= i < |more| && more[i].opcode == CLOSE;
        assert fs[i + 1].opcode == CLOSE;
      }
    }
  }

  lemma TooShort()
    ensures NextFrame([]) == Incomplete
  {}

  /** Wherever the stream of a server's frames is cut, even inside a header, decoding the parts in turn
      yields the text payloads the frames carry, with nothing left. */
  lemma AnyCutDecodes(fs: seq<ServerFrame>, first: Bytes, rest: Bytes)
    requires AllWellFormed(fs) && !HasClose(fs) && first + rest == EncodeAll(fs)
    ensures var d := Decode(first);
            !d.closed && d.payloads + Decode(d.rest + rest).payloads == Texts(fs) && Decode(d.rest + rest).rest == []
  {
    DecodesFrames(fs);
    ChunksDoNotMatter(first, rest);
  }
}
