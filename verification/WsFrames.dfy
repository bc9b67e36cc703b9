/**
 WebSocket frames as the gateway observes them (sections 5.2 and 5.3 of RFC 6455): text frames only,
 unmasked on the way, whatever the transport's chunking. FIN, reserved bits, continuation and
 control frames carry no meaning here; their payloads are skipped.
 */
module WsFrames {
  import opened Prelude

  const TEXT := 1

  // ---------------------------------------------------------------------------------------------
  // Masking

  /** Exclusive or of the low `n` bits. */
  function XorBits(a: nat, b: nat, n: nat): nat {
    if n == 0 then 0 else (a + b) % 2 + 2 * XorBits(a / 2, b / 2, n - 1)
  }

  function Pow2(n: nat): nat {
    if n == 0 then 1 else 2 * Pow2(n - 1)
  }

  lemma {:induction false} XorBound(a: nat, b: nat, n: nat)
    ensures XorBits(a, b, n) < Pow2(n)
  {
    if n > 0 { XorBound(a / 2, b / 2, n - 1); }
  }

  /** Bit `k` of a number, by halving. */
  function Bit(n: nat, k: nat): nat {
    if k == 0 then n % 2 else Bit(n / 2, k - 1)
  }

  /** `z` is the exclusive or of two bytes: a bit of it is set iff exactly one of theirs is. */
  predicate ExclusiveOr(x: byte, y: byte, z: byte) {
    forall k | 0 <= k < 8 :: Bit(z, k) == 1 <==> Bit(x, k) != Bit(y, k)
  }

  lemma {:induction false} BitsOfXor(a: nat, b: nat, n: nat, k: nat)
    requires k < n
    ensures Bit(XorBits(a, b, n), k) == 1 <==> Bit(a, k) != Bit(b, k)
  {
    var x := XorBits(a / 2, b / 2, n - 1);
    LowBit(a, b, x);
    assert XorBits(a, b, n) == (a + b) % 2 + 2 * x;
    if k > 0 { BitsOfXor(a / 2, b / 2, n - 1, k - 1); }
  }

  lemma {:induction false} BitRange(n: nat, k: nat)
    ensures Bit(n, k) == 0 || Bit(n, k) == 1
  {
    if k > 0 { BitRange(n / 2, k - 1); }
  }

  lemma {:induction false} SameBits(a: nat, b: nat, n: nat)
    requires a < Pow2(n) && b < Pow2(n) && forall k | 0 <= k < n :: Bit(a, k) == Bit(b, k)
    ensures a == b
  {
    if n > 0 {
      assert Bit(a, 0) == Bit(b, 0);
      forall k | 0 <= k < n - 1 ensures Bit(a / 2, k) == Bit(b / 2, k) {
        assert Bit(a, k + 1) == Bit(b, k + 1);
      }
      SameBits(a / 2, b / 2, n - 1);
    }
  }

  lemma LowBit(a: nat, b: nat, x: nat)
    ensures ((a + b) % 2 + 2 * x) / 2 == x
    ensures ((a + b) % 2 + 2 * x + b) % 2 == a % 2
    ensures ((a + b) % 2 + 2 * x) % 2 == (a + b) % 2
    ensures (a + b) % 2 == 1 <==> a % 2 != b % 2
  {
  }

  lemma {:induction false} XorTwice(a: nat, b: nat, n: nat)
    requires a < Pow2(n)
    ensures XorBits(XorBits(a, b, n), b, n) == a
  {
    if n > 0 {
      var x := XorBits(a / 2, b / 2, n - 1);
      var low := (a + b) % 2;
      XorTwice(a / 2, b / 2, n - 1);
      LowBit(a, b, x);
      assert XorBits(a, b, n) == low + 2 * x;
    }
  }

  function Xor(a: byte, b: byte): byte {
    XorBound(a, b, 8);
    assert Pow2(8) == 256 by { assert Pow2(4) == 16; }
    XorBits(a, b, 8)
  }

  lemma XorCancels(a: byte, b: byte)
    ensures Xor(Xor(a, b), b) == a
  {
    assert Pow2(8) == 256 by { assert Pow2(4) == 16; }
    XorTwice(a, b, 8);
  }

  /** The byte that `push` computes is the exclusive or of its arguments, and the only byte that is. */
  lemma XorIsExclusiveOr(a: byte, b: byte, z: byte)
    ensures ExclusiveOr(a, b, z) <==> z == Xor(a, b)
  {
    var x := Xor(a, b);
    forall k | 0 <= k < 8 ensures Bit(x, k) == 1 <==> Bit(a, k) != Bit(b, k) {
      BitsOfXor(a, b, 8, k);
    }
    if ExclusiveOr(a, b, z) {
      forall k | 0 <= k < 8 ensures Bit(z, k) == Bit(x, k) {
        BitRange(z, k);
        BitRange(x, k);
      }
      assert Pow2(8) == 256 by { assert Pow2(4) == 16; }
      SameBits(z, x, 8);
    }
  }

  /** Exclusive or is its own inverse, bit by bit. */
  lemma ExclusiveOrTurns(x: byte, y: byte, z: byte)
    requires ExclusiveOr(x, y, z)
    ensures ExclusiveOr(z, y, x)
  {
    forall k | 0 <= k < 8 ensures Bit(x, k) == 1 <==> Bit(z, k) != Bit(y, k) {
      BitRange(x, k);
      BitRange(y, k);
      BitRange(z, k);
    }
  }

  type MaskKey = k: seq<byte> | |k| == 4 witness [0, 0, 0, 0]

  function Masked(payload: seq<byte>, key: MaskKey): (r: seq<byte>)
    ensures |r| == |payload|
  {
    seq(|payload|, i requires 0 <= i < |payload| => Xor(payload[i], key[i % 4]))
  }

  lemma MaskingUndoesItself(payload: seq<byte>, key: MaskKey)
    ensures Masked(Masked(payload, key), key) == payload
  {
    forall i | 0 <= i < |payload| ensures Masked(Masked(payload, key), key)[i] == payload[i] {
      XorCancels(payload[i], key[i % 4]);
    }
  }

  /** The in-place unmasking loop of `push`. */
  method UnmaskInPlace(payload: array<byte>, key: MaskKey)
    modifies payload
    ensures payload[..] == Masked(old(payload[..]), key)
  {
    for i := 0 to payload.Length
      invariant forall k | 0 <= k < i :: payload[k] == Xor(old(payload[k]), key[k % 4])
      invariant forall k | i <= k < payload.Length :: payload[k] == old(payload[k])
    {
      payload[i] := Xor(payload[i], key[i % 4]);
    }
  }

  // ---------------------------------------------------------------------------------------------
  // One frame

  function BigEndian(s: seq<byte>): nat {
    if s == [] then 0 else BigEndian(s[..|s| - 1]) * 256 + s[|s| - 1]
  }

  datatype Head =
    | More    // not enough bytes yet
    | Refused // declared length overflows, or exceeds the cap
    | Frame(hdr: nat, masked: bool, total: nat, opcode: nat)

  function MaskLen(masked: bool): nat {
    if masked then 4 else 0
  }

  /** Length of the fixed header for this second byte. */
  function HeaderLen(b1: byte): nat {
    if b1 % 128 == 126 then 4 else if b1 % 128 == 127 then 10 else 2
  }

  function DeclaredLen(buf: seq<byte>): nat
    requires |buf| >= 2 && |buf| >= HeaderLen(buf[1])
  {
    var hdr := HeaderLen(buf[1]);
    if hdr == 2 then buf[1] % 128 else BigEndian(buf[2..hdr])
  }

  /** What the parser can tell about the frame at the start of its buffer; cap 0 is no cap. */
  function ReadHead(buf: seq<byte>, cap: nat): (h: Head)
    ensures h.Frame? ==> 2 <= h.hdr + MaskLen(h.masked) <= h.total <= |buf|
  {
    if |buf| < 2 || |buf| < HeaderLen(buf[1]) then More
    else
      var hdr, masked, len := HeaderLen(buf[1]), buf[1] >= 128, DeclaredLen(buf);
      var total := hdr + MaskLen(masked) + len;
      if total >= U64_LIMIT || (cap > 0 && len > cap) then Refused
      else if |buf| < total then More
      else Frame(hdr, masked, total, buf[0] % 16)
  }

  function PayloadOf(buf: seq<byte>, h: Head): seq<byte>
    requires h.Frame? && h.hdr + MaskLen(h.masked) <= h.total <= |buf|
  {
    var body := buf[h.hdr + MaskLen(h.masked)..h.total];
    if h.masked then Masked(body, buf[h.hdr..h.hdr + 4]) else body
  }

  /** Outcome of parsing all complete frames of a buffer. */
  datatype Parse = Parse(texts: seq<seq<byte>>, rest: seq<byte>, refused: bool)

  function ParseAll(buf: seq<byte>, cap: nat): Parse
    decreases |buf|
  {
    var h := ReadHead(buf, cap);
    match h
    case More => Parse([], buf, false)
    case Refused => Parse([], [], true)
    case Frame(_, _, total, opcode) =>
      var tail := ParseAll(buf[total..], cap);
      Parse((if opcode == TEXT then [PayloadOf(buf, h)] else []) + tail.texts, tail.rest, tail.refused)
  }

  class WsFrameParser {
    var buf: seq<byte>
    const maxPayload: nat

    constructor (maxPayload: nat)
      ensures buf == [] && this.maxPayload == maxPayload
    {
      buf := [];
      this.maxPayload := maxPayload;
    }

    /** `push`: complete text payloads of everything received; the rest stays buffered. */
    method Push(data: seq<byte>) returns (out: seq<seq<byte>>)
      modifies this
      ensures var r := ParseAll(old(buf) + data, maxPayload);
              out == r.texts && buf == r.rest
    {
      buf := buf + data;
      out := [];
      ghost var all := ParseAll(buf, maxPayload);
      while true
        invariant Continues(all, out, ParseAll(buf, maxPayload))
        decreases |buf|
      {
        var h := ReadHead(buf, maxPayload);
        if h.More? {
          return;
        }
        if h.Refused? {
          buf := [];
          return;
        }
        var payload := CopyPayload(buf, h);
        ParseStep(buf, maxPayload);
        buf := buf[h.total..];
        if h.opcode == TEXT {
          Assoc(out, [payload], ParseAll(buf, maxPayload).texts);
          out := out + [payload];
        }
      }
    }
  }

  /** `out` has been returned already, `left` is what the remaining buffer parses to. */
  predicate Continues(all: Parse, out: seq<seq<byte>>, left: Parse) {
    all.texts == out + left.texts && all.rest == left.rest
  }

  lemma ParseStep(buf: seq<byte>, cap: nat)
    requires ReadHead(buf, cap).Frame?
    ensures var h := ReadHead(buf, cap);
            var tail := ParseAll(buf[h.total..], cap);
            && ParseAll(buf, cap).rest == tail.rest
            && ParseAll(buf, cap).texts
                 == (if h.opcode == TEXT then [PayloadOf(buf, h)] + tail.texts else tail.texts)
  {
  }

  /** Copy the payload out of the buffer and unmask the copy in place. */
  method CopyPayload(buf: seq<byte>, h: Head) returns (payload: seq<byte>)
    requires h.Frame? && h.hdr + MaskLen(h.masked) <= h.total <= |buf|
    ensures payload == PayloadOf(buf, h)
  {
    var body := buf[h.hdr + MaskLen(h.masked)..h.total];
    var copy := new byte[|body|](i requires 0 <= i < |body| => body[i]);
    assert copy[..] == body;
    if h.masked {
      UnmaskInPlace(copy, buf[h.hdr..h.hdr + 4]);
    }
    payload := copy[..];
  }

  // ---------------------------------------------------------------------------------------------
  // Chunking

  /** What a decided head does not look at cannot change it. */
  lemma HeadIsStable(a: seq<byte>, c: seq<byte>, cap: nat)
    requires !ReadHead(a, cap).More?
    ensures ReadHead(a + c, cap) == ReadHead(a, cap)
    ensures ReadHead(a, cap).Frame? ==> PayloadOf(a + c, ReadHead(a, cap)) == PayloadOf(a, ReadHead(a, cap))
  {
    var hdr := HeaderLen(a[1]);
    assert (a + c)[2..hdr] == a[2..hdr];
    var h := ReadHead(a, cap);
    if h.Frame? {
      var start := h.hdr + MaskLen(h.masked);
      assert (a + c)[start..h.total] == a[start..h.total];
      if h.masked { assert (a + c)[h.hdr..h.hdr + 4] == a[h.hdr..h.hdr + 4]; }
    }
  }

  /** Parsing in two goes is parsing at once, unless the first go refuses a frame. */
  lemma {:induction false} ParseInTwo(a: seq<byte>, c: seq<byte>, cap: nat)
    ensures ParseAll(a, cap).refused ==> ParseAll(a + c, cap).refused
    ensures !ParseAll(a, cap).refused ==>
      var first := ParseAll(a, cap);
      var second := ParseAll(first.rest + c, cap);
      ParseAll(a + c, cap) == Parse(first.texts + second.texts, second.rest, second.refused)
    decreases |a|
  {
    var h := ReadHead(a, cap);
    if !h.More? { HeadIsStable(a, c, cap); }
    if h.Frame? {
      assert (a + c)[h.total..] == a[h.total..] + c;
      ParseInTwo(a[h.total..], c, cap);
      var mine := if h.opcode == TEXT then [PayloadOf(a, h)] else [];
      var tail := ParseAll(a[h.total..], cap);
      Assoc(mine, tail.texts, ParseAll(tail.rest + c, cap).texts);
    }
  }

  /** The parser's state after a list of chunks: everything returned so far, and the buffer. */
  function PushAll(chunks: seq<seq<byte>>, cap: nat): Parse {
    if chunks == [] then Parse([], [], false)
    else
      var before := PushAll(chunks[..|chunks| - 1], cap);
      var r := ParseAll(before.rest + chunks[|chunks| - 1], cap);
      Parse(before.texts + r.texts, r.rest, before.refused || r.refused)
  }

  /** For any bytes and any chunking, if no frame of the whole stream is refused, chunks do not matter. */
  lemma {:induction false} ChunkingIrrelevant(chunks: seq<seq<byte>>, cap: nat)
    requires !ParseAll(Flatten(chunks), cap).refused
    ensures PushAll(chunks, cap) == ParseAll(Flatten(chunks), cap)
    decreases |chunks|
  {
    if chunks != [] {
      var init, last := chunks[..|chunks| - 1], chunks[|chunks| - 1];
      assert init + [last] == chunks;
      FlattenSnoc(init, last);
      ParseInTwo(Flatten(init), last, cap);
      ChunkingIrrelevant(init, cap);
    }
  }

  // ---------------------------------------------------------------------------------------------
  // Framing and unframing

  datatype Form = Short | Medium | Long

  /** A frame as sent: first byte (flags and opcode), length form, mask key, payload, payload on the wire. */
  datatype WsFrame = WsFrame(first: byte, form: Form, key: Option<MaskKey>, payload: seq<byte>, wire: seq<byte>)

  /** On the wire byte `i` of a masked payload is its exclusive or with byte `i` modulo 4 of the key. */
  predicate OnTheWire(f: WsFrame) {
    match f.key
    case None => f.wire == f.payload
    case Some(key) =>
      |f.wire| == |f.payload| && forall i | 0 <= i < |f.payload| :: ExclusiveOr(f.payload[i], key[i % 4], f.wire[i])
  }

  predicate Sendable(f: WsFrame, cap: nat) {
    && OnTheWire(f)
    && (cap > 0 ==> |f.payload| <= cap)
    && match f.form
       case Short => |f.payload| < 126
       case Medium => |f.payload| < 65_536
       case Long => 10 + MaskLen(f.key.Some?) + |f.payload| < U64_LIMIT
  }

  function ToBigEndian(n: nat, w: nat): (s: seq<byte>)
    ensures |s| == w
  {
    if w == 0 then [] else ToBigEndian(n / 256, w - 1) + [n % 256]
  }

  function Pow256(w: nat): nat {
    if w == 0 then 1 else 256 * Pow256(w - 1)
  }

  lemma {:induction false} BigEndianRoundTrip(n: nat, w: nat)
    requires n < Pow256(w)
    ensures BigEndian(ToBigEndian(n, w)) == n
  {
    if w > 0 {
      BigEndianRoundTrip(n / 256, w - 1);
      assert ToBigEndian(n, w)[..w - 1] == ToBigEndian(n / 256, w - 1);
    }
  }

  function HeaderOf(f: WsFrame): seq<byte>
    requires Sendable(f, 0)
  {
    var mask := if f.key.Some? then 128 else 0;
    match f.form
    case Short => [f.first, mask + |f.payload|]
    case Medium => [f.first, mask + 126] + ToBigEndian(|f.payload|, 2)
    case Long => [f.first, mask + 127] + ToBigEndian(|f.payload|, 8)
  }

  function Encode(f: WsFrame): seq<byte>
    requires Sendable(f, 0)
  {
    HeaderOf(f) + (if f.key.Some? then f.key.value + f.wire else f.wire)
  }

  lemma SecondByte(masked: bool, n: nat)
    requires n < 128
    ensures var b: byte := (if masked then 128 else 0) + n; b % 128 == n && (b >= 128 <==> masked)
  {
  }

  lemma LengthReads(first: byte, second: byte, n: nat, w: nat, rest: seq<byte>)
    requires (w == 2 && second % 128 == 126) || (w == 8 && second % 128 == 127)
    requires n < Pow256(w)
    ensures var h := [first, second] + ToBigEndian(n, w);
            |h| == HeaderLen((h + rest)[1]) && DeclaredLen(h + rest) == n
  {
    var h := [first, second] + ToBigEndian(n, w);
    BigEndianRoundTrip(n, w);
    assert (h + rest)[2..2 + w] == ToBigEndian(n, w);
  }

  lemma HeaderReads(f: WsFrame, rest: seq<byte>)
    requires Sendable(f, 0)
    ensures var h := HeaderOf(f); var buf := h + rest;
            && |h| >= 2 && |h| == HeaderLen(buf[1]) && DeclaredLen(buf) == |f.payload|
            && buf[0] == f.first && (buf[1] >= 128 <==> f.key.Some?)
  {
    var mask := if f.key.Some? then 128 else 0;
    match f.form {
      case Short =>
        SecondByte(f.key.Some?, |f.payload|);
      case Medium =>
        SecondByte(f.key.Some?, 126);
        assert Pow256(2) == 65_536;
        LengthReads(f.first, mask + 126, |f.payload|, 2, rest);
      case Long =>
        SecondByte(f.key.Some?, 127);
        LongWidth();
        LengthReads(f.first, mask + 127, |f.payload|, 8, rest);
    }
  }

  lemma LongWidth()
    ensures Pow256(8) == U64_LIMIT
  {
    assert Pow256(2) == 65_536;
    assert Pow256(4) == 65_536 * 65_536;
    assert Pow256(6) == 65_536 * 65_536 * 65_536;
  }

  lemma EncodedReads(f: WsFrame, rest: seq<byte>, cap: nat)
    requires Sendable(f, cap)
    ensures var buf := Encode(f) + rest;
            var h := ReadHead(buf, cap);
            h == Frame(|HeaderOf(f)|, f.key.Some?, |Encode(f)|, f.first % 16)
            && PayloadOf(buf, h) == f.payload
  {
    var head := HeaderOf(f);
    var body := if f.key.Some? then f.key.value + f.wire else f.wire;
    Assoc(head, body, rest);
    HeaderReads(f, body + rest);
    if f.key.Some? {
      Assoc(f.key.value, f.wire, rest);
      Middle(head, f.key.value, f.wire + rest);
      Assoc(head, f.key.value, f.wire + rest);
      Middle(head + f.key.value, f.wire, rest);
      WireUnmasked(f);
    } else {
      Middle(head, f.wire, rest);
    }
  }

  lemma WireUnmasked(f: WsFrame)
    requires OnTheWire(f) && f.key.Some?
    ensures Masked(f.wire, f.key.value) == f.payload
  {
    forall i | 0 <= i < |f.payload| ensures Xor(f.wire[i], f.key.value[i % 4]) == f.payload[i] {
      ExclusiveOrTurns(f.payload[i], f.key.value[i % 4], f.wire[i]);
      XorIsExclusiveOr(f.wire[i], f.key.value[i % 4], f.payload[i]);
    }
  }

  /** Every payload has a wire form under every key: masking it again. */
  lemma WireExists(f: WsFrame)
    requires f.key.Some? && f.wire == Masked(f.payload, f.key.value)
    ensures OnTheWire(f)
  {
    forall i | 0 <= i < |f.payload| ensures ExclusiveOr(f.payload[i], f.key.value[i % 4], f.wire[i]) {
      XorIsExclusiveOr(f.payload[i], f.key.value[i % 4], f.wire[i]);
    }
  }

  /** A frame that declares more than the cap is refused on its header alone. */
  lemma OversizedIsRefused(f: WsFrame, rest: seq<byte>, cap: nat)
    requires Sendable(f, 0) && 0 < cap < |f.payload|
    ensures ReadHead(HeaderOf(f) + rest, cap) == Refused
    ensures ParseAll(HeaderOf(f) + rest, cap) == Parse([], [], true)
  {
    HeaderReads(f, rest);
  }

  /** So is, under any cap, a declared length with which the frame would pass the 64-bit range. */
  lemma OverflowIsRefused(first: byte, masked: bool, n: nat, rest: seq<byte>, cap: nat)
    requires n < U64_LIMIT <= 10 + MaskLen(masked) + n
    ensures ReadHead([first, if masked then 255 else 127] + ToBigEndian(n, 8) + rest, cap) == Refused
  {
    LongWidth();
    LengthReads(first, if masked then 255 else 127, n, 8, rest);
  }

  lemma Middle<T>(a: seq<T>, b: seq<T>, c: seq<T>)
    ensures (a + (b + c))[|a|..|a| + |b|] == b
  {
  }

  predicate AllSendable(frames: seq<WsFrame>, cap: nat) {
    forall f | f in frames :: Sendable(f, cap)
  }

  function EncodeAll(frames: seq<WsFrame>): seq<byte>
    requires AllSendable(frames, 0)
  {
    if frames == [] then [] else Encode(frames[0]) + EncodeAll(frames[1..])
  }

  /** The payloads of the text frames (opcode 1), in order. */
  function Texts(frames: seq<WsFrame>): seq<seq<byte>> {
    if frames == [] then []
    else (if frames[0].first % 16 == 1 then [frames[0].payload] else []) + Texts(frames[1..])
  }

  lemma StrictPrefixWaits(f: WsFrame, p: seq<byte>, cap: nat)
    requires Sendable(f, cap) && p < Encode(f)
    ensures ReadHead(p, cap).More?
  {
    var h := ReadHead(p, cap);
    var rest := Encode(f)[|p|..];
    assert Encode(f) == p + rest;
    EncodedReads(f, [], cap);
    assert Encode(f) + [] == Encode(f);
    if !h.More? { HeadIsStable(p, rest, cap); }
  }

  /** A stream of whole frames followed by an unfinished one parses to the texts and that remainder. */
  lemma {:induction false} ParseEncoded(frames: seq<WsFrame>, last: WsFrame, p: seq<byte>, cap: nat)
    requires AllSendable(frames, cap) && Sendable(last, cap) && p < Encode(last)
    ensures ParseAll(EncodeAll(frames) + p, cap) == Parse(Texts(frames), p, false)
    decreases |frames|
  {
    if frames == [] {
      StrictPrefixWaits(last, p, cap);
      assert [] + p == p;
    } else {
      assert forall g | g in frames[1..] :: g in frames && Sendable(g, cap) && Sendable(g, 0);
      var f, rest := frames[0], EncodeAll(frames[1..]) + p;
      EncodedReads(f, rest, cap);
      Assoc(Encode(f), EncodeAll(frames[1..]), p);
      assert (Encode(f) + rest)[|Encode(f)|..] == rest;
      ParseEncoded(frames[1..], last, p, cap);
    }
  }

  /**
   For any frames, mask keys, length forms and chunking, the texts returned over all pushes are the
   payloads of the text frames in order, and the buffer holds exactly the unfinished last frame.
   */
  lemma FramingRoundTrip(frames: seq<WsFrame>, last: WsFrame, p: seq<byte>, chunks: seq<seq<byte>>, cap: nat)
    requires AllSendable(frames, cap) && Sendable(last, cap) && p < Encode(last)
    requires Flatten(chunks) == EncodeAll(frames) + p
    ensures PushAll(chunks, cap) == Parse(Texts(frames), p, false)
  {
    ParseEncoded(frames, last, p, cap);
    ChunkingIrrelevant(chunks, cap);
  }
}
