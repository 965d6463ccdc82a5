// The Python client's transports: newline framing over arbitrary chunks, and
// WebSocket frames (sections 5.2 to 5.4 of RFC 6455).
module Transport {
  import opened Options

  type Byte = b: int | 0 <= b < 256

  type Bytes = seq<Byte>

  const NEWLINE: Byte := 10

  // --- newline-delimited lines over TCP ---

  // What one call of `recv` may do; an empty read means the peer is gone.
  datatype Arrival = Chunk(bytes: Bytes) | Timeout | Gone

  datatype Outcome = Line(line: Bytes) | TimedOut | Disconnected

  function Pending(incoming: seq<Arrival>): Bytes {
    if incoming == [] || incoming[0].Gone? then []
    else (if incoming[0].Chunk? then incoming[0].bytes else []) + Pending(incoming[1..])
  }

  function IndexOf(s: Bytes, b: Byte): (k: nat)
    ensures k <= |s| && b !in s[..k] && (k < |s| ==> s[k] == b)
  {
    if s == [] || s[0] == b then 0
    else
      var k := IndexOf(s[1..], b) + 1;
      assert s[..k] == [s[0]] + s[1..][..k - 1];
      k
  }

  // The complete lines of a byte stream.
  function Lines(s: Bytes): seq<Bytes>
    decreases |s|
  {
    var k := IndexOf(s, NEWLINE);
    if k == |s| then [] else [s[..k]] + Lines(s[k + 1..])
  }

  // What a call may return and leave of the stream: the next line, or nothing.
  ghost predicate Reads(before: Bytes, r: Outcome, after: Bytes) {
    match r
    case Line(line) => NEWLINE !in line && before == line + [NEWLINE] + after
    case TimedOut => after == before
    case Disconnected => after == before && NEWLINE !in before
  }

  function LinesOf(results: seq<Outcome>): seq<Bytes> {
    if results == [] then []
    else (if results[0].Line? then [results[0].line] else []) + LinesOf(results[1..])
  }

  lemma FirstNewline(line: Bytes, rest: Bytes)
    requires NEWLINE !in line
    ensures IndexOf(line + [NEWLINE] + rest, NEWLINE) == |line|
  {
    var s := line + [NEWLINE] + rest;
    var k := IndexOf(s, NEWLINE);
    assert s[|line|] == NEWLINE;
    assert forall i :: 0 <= i < |line| ==> s[i] == line[i] && line[i] in line;
    assert forall i :: 0 <= i < k ==> s[i] in s[..k];
  }

  lemma NoNewlineNoLines(s: Bytes)
    requires NEWLINE !in s
    ensures Lines(s) == []
  {
    var k := IndexOf(s, NEWLINE);
    assert forall i :: 0 <= i < |s| ==> s[i] in s;
  }

  lemma ReadKeepsLines(before: Bytes, r: Outcome, after: Bytes)
    requires Reads(before, r, after)
    ensures Lines(before) == LinesOf([r]) + Lines(after)
    ensures r.Disconnected? ==> Lines(after) == []
  {
    assert [r][1..] == [];
    if r.Line? {
      FirstNewline(r.line, after);
      assert before[|r.line| + 1..] == after && before[..|r.line|] == r.line;
    } else if r.Disconnected? {
      NoNewlineNoLines(before);
    }
  }

  // `streams` holds the stream before each call and after the last.
  ghost predicate Session(streams: seq<Bytes>, results: seq<Outcome>) {
    && |streams| == |results| + 1
    && forall i :: 0 <= i < |results| ==> Reads(streams[i], results[i], streams[i + 1])
  }

  // Over any session, timeouts and all, the lines returned are the first lines
  // of the stream, the rest is still to come, and at the end there is none.
  lemma {:induction false} SessionReturnsLines(streams: seq<Bytes>, results: seq<Outcome>)
    requires Session(streams, results)
    ensures Lines(streams[0]) == LinesOf(results) + Lines(streams[|results|])
    decreases |results|
  {
    if results != [] {
      SessionTail(streams, results);
      SessionReturnsLines(streams[1..], results[1..]);
      ReadKeepsLines(streams[0], results[0], streams[1]);
      LinesOfFirst(results);
    }
  }

  lemma SessionTail(streams: seq<Bytes>, results: seq<Outcome>)
    requires Session(streams, results) && results != []
    ensures Session(streams[1..], results[1..]) && Reads(streams[0], results[0], streams[1])
    ensures streams[1..][|results| - 1] == streams[|results|] && streams[1..][0] == streams[1]
  {
    var later, rest := streams[1..], results[1..];
    forall i | 0 <= i < |rest|
      ensures Reads(later[i], rest[i], later[i + 1])
    {
      var j := i + 1;
      assert Reads(streams[j], results[j], streams[j + 1]);
      assert later[i] == streams[j] && rest[i] == results[j] && later[i + 1] == streams[j + 1];
    }
  }

  lemma LinesOfFirst(results: seq<Outcome>)
    requires results != []
    ensures LinesOf(results) == LinesOf([results[0]]) + LinesOf(results[1..])
  {
    assert [results[0]][1..] == [];
  }

  // A session that runs until the peer is gone returns every line there is,
  // however the stream was cut up.
  lemma FinishedSessionReturnsAll(streams: seq<Bytes>, results: seq<Outcome>)
    requires Session(streams, results) && results != [] && results[|results| - 1].Disconnected?
    ensures LinesOf(results) == Lines(streams[0])
  {
    SessionReturnsLines(streams, results);
    var n := |results|;
    assert Reads(streams[n - 1], results[n - 1], streams[n]);
    NoNewlineNoLines(streams[n]);
  }

  class TcpTransport {
    var buf: Bytes
    var incoming: seq<Arrival>

    constructor (arrivals: seq<Arrival>)
      ensures buf == [] && incoming == arrivals
    {
      buf, incoming := [], arrivals;
    }

    // Everything received and not yet returned, and still to come.
    ghost function Stream(): Bytes
      reads this
    {
      buf + Pending(incoming)
    }

    method RecvLine() returns (r: Outcome)
      modifies this
      ensures Reads(old(Stream()), r, Stream())
      ensures !r.Line? ==> NEWLINE !in buf
      ensures r.Disconnected? ==> incoming != [] && incoming[0].Gone?
      ensures r.TimedOut? ==> incoming == [] || |incoming| < |old(incoming)|
    {
      while NEWLINE !in buf
        invariant Stream() == old(Stream()) && |incoming| <= |old(incoming)|
        decreases |incoming|
      {
        if incoming == [] {
          return TimedOut;
        }
        match incoming[0] {
          case Gone =>
            return Disconnected;
          case Timeout =>
            incoming := incoming[1..];
            return TimedOut;
          case Chunk(data) =>
            buf, incoming := buf + data, incoming[1..];
        }
      }
      var k := IndexOf(buf, NEWLINE);
      assert buf == buf[..k] + [NEWLINE] + buf[k + 1..];
      r := Line(buf[..k]);
      buf := buf[k + 1..];
    }
  }

  // --- WebSocket frames ---

  // Bitwise exclusive or, bit by bit.
  function Xor(a: nat, b: nat): nat
    decreases a + b
  {
    if a == 0 && b == 0 then 0 else (a + b) % 2 + 2 * Xor(a / 2, b / 2)
  }

  function Pow2(k: nat): nat {
    if k == 0 then 1 else 2 * Pow2(k - 1)
  }

  lemma {:induction false} XorBelow(a: nat, b: nat, k: nat)
    requires a < Pow2(k) && b < Pow2(k)
    ensures Xor(a, b) < Pow2(k)
    decreases k
  {
    if k > 0 && !(a == 0 && b == 0) {
      XorBelow(a / 2, b / 2, k - 1);
    }
  }

  lemma ParityCancels(a: nat, b: nat, half: nat)
    ensures var x := (a + b) % 2 + 2 * half; x / 2 == half && (x + b) % 2 == a % 2
  {}

  lemma {:induction false} XorTwice(a: nat, b: nat)
    ensures Xor(Xor(a, b), b) == a
    decreases a + b
  {
    if !(a == 0 && b == 0) {
      XorTwice(a / 2, b / 2);
      var x := Xor(a, b);
      ParityCancels(a, b, Xor(a / 2, b / 2));
      assert x / 2 == Xor(a / 2, b / 2) && (x + b) % 2 == a % 2;
      assert (x == 0 && b == 0) || Xor(x, b) == a % 2 + 2 * Xor(x / 2, b / 2);
      assert a == a % 2 + 2 * (a / 2);
    }
  }

  // The bits of a number, the lowest first.
  predicate Bit(n: nat, k: nat) {
    if k == 0 then n % 2 == 1 else Bit(n / 2, k - 1)
  }

  lemma {:induction false} NoBits(k: nat)
    ensures !Bit(0, k)
  {
    if k > 0 { NoBits(k - 1); }
  }

  // A bit of the exclusive or is set exactly when the two bits differ.
  lemma {:induction false} XorBits(a: nat, b: nat, k: nat)
    ensures Bit(Xor(a, b), k) <==> Bit(a, k) != Bit(b, k)
    decreases k
  {
    if a == 0 && b == 0 {
      NoBits(k);
    } else {
      ParityCancels(a, b, Xor(a / 2, b / 2));
      assert Xor(a, b) / 2 == Xor(a / 2, b / 2) && Xor(a, b) % 2 == (a + b) % 2;
      if k > 0 { XorBits(a / 2, b / 2, k - 1); }
    }
  }

  // The number of n bits, each set where the bits of a and b from the k-th on differ.
  function Differing(a: nat, b: nat, k: nat, n: nat): (r: nat)
    ensures r < Pow2(n)
    decreases n
  {
    if n == 0 then 0 else (if Bit(a, k) != Bit(b, k) then 1 else 0) + 2 * Differing(a, b, k + 1, n - 1)
  }

  lemma {:induction false} DifferingIs(a: nat, b: nat, k: nat, n: nat, x: nat)
    requires x < Pow2(n) && forall j: nat :: j < n ==> (Bit(x, j) <==> Bit(a, k + j) != Bit(b, k + j))
    ensures Differing(a, b, k, n) == x
    decreases n
  {
    if n > 0 {
      assert Bit(x, 0) <==> Bit(a, k + 0) != Bit(b, k + 0);
      forall j: nat | j < n - 1
        ensures Bit(x / 2, j) <==> Bit(a, k + 1 + j) != Bit(b, k + 1 + j)
      {
        assert Bit(x, j + 1) <==> Bit(a, k + (j + 1)) != Bit(b, k + (j + 1));
      }
      DifferingIs(a, b, k + 1, n - 1, x / 2);
    }
  }

  function XorByte(a: Byte, b: Byte): Byte {
    assert Pow2(8) == 256 by { assert Pow2(4) == 16; }
    XorBelow(a, b, 8);
    Xor(a, b)
  }

  function Masked(payload: Bytes, mask: Bytes): (r: Bytes)
    requires |mask| == 4
    ensures |r| == |payload|
  {
    seq(|payload|, i requires 0 <= i < |payload| => XorByte(payload[i], mask[i % 4]))
  }

  // Section 5.3 of RFC 6455, bit by bit: bit k of byte i is that of the payload,
  // turned where bit k of byte i mod 4 of the mask is set.
  lemma MaskedBits(payload: Bytes, mask: Bytes, i: nat, k: nat)
    requires |mask| == 4 && i < |payload|
    ensures Bit(Masked(payload, mask)[i], k) <==> Bit(payload[i], k) != Bit(mask[i % 4], k)
  {
    XorBits(payload[i], mask[i % 4], k);
  }

  // What a receiver makes of it by that rule.
  function Unmasked(data: Bytes, mask: Bytes): (r: Bytes)
    requires |mask| == 4
    ensures |r| == |data|
  {
    assert Pow2(8) == 256 by { assert Pow2(4) == 16; }
    seq(|data|, i requires 0 <= i < |data| => Differing(data[i], mask[i % 4], 0, 8))
  }

  lemma UnmaskedBack(payload: Bytes, mask: Bytes)
    requires |mask| == 4
    ensures Unmasked(Masked(payload, mask), mask) == payload
  {
    var data := Masked(payload, mask);
    assert Pow2(8) == 256 by { assert Pow2(4) == 16; }
    forall i | 0 <= i < |payload|
      ensures Unmasked(data, mask)[i] == payload[i]
    {
      forall k: nat | k < 8
        ensures Bit(payload[i], k) <==> Bit(data[i], 0 + k) != Bit(mask[i % 4], 0 + k)
      {
        MaskedBits(payload, mask, i, k);
      }
      DifferingIs(data[i], mask[i % 4], 0, 8, payload[i]);
    }
  }

  lemma MaskedTwice(payload: Bytes, mask: Bytes)
    requires |mask| == 4
    ensures Masked(Masked(payload, mask), mask) == payload
  {
    forall i | 0 <= i < |payload|
      ensures Masked(Masked(payload, mask), mask)[i] == payload[i]
    {
      XorTwice(payload[i], mask[i % 4]);
    }
  }

  function Pow256(k: nat): nat {
    if k == 0 then 1 else 256 * Pow256(k - 1)
  }

  function ToBigEndian(n: nat, k: nat): (r: Bytes)
    ensures |r| == k
  {
    if k == 0 then [] else ToBigEndian(n / 256, k - 1) + [n % 256]
  }

  function FromBigEndian(s: Bytes): nat {
    if s == [] then 0 else 256 * FromBigEndian(s[..|s| - 1]) + s[|s| - 1]
  }

  lemma {:induction false} BigEndianRoundTrip(n: nat, k: nat)
    requires n < Pow256(k)
    ensures FromBigEndian(ToBigEndian(n, k)) == n
  {
    if k > 0 {
      var r := ToBigEndian(n, k);
      assert r[..k - 1] == ToBigEndian(n / 256, k - 1);
      BigEndianRoundTrip(n / 256, k - 1);
    }
  }

  lemma {:induction false} BigEndianBelow(s: Bytes)
    ensures FromBigEndian(s) < Pow256(|s|)
  {
    if s != [] { BigEndianBelow(s[..|s| - 1]); }
  }

  datatype Frame = Frame(fin: bool, opcode: nat, payload: Bytes)

  // The length of a payload is sent in eight bytes at most.
  const MAX_LENGTH: nat := 0x1_0000_0000_0000_0000

  // The second header byte and the extended length; `flag` is the mask bit.
  function LengthField(flag: Byte, n: nat): Bytes
    requires (flag == 0 || flag == 128) && n < MAX_LENGTH
  {
    if n < 126 then [flag + n]
    else if n < 65536 then [flag + 126] + ToBigEndian(n, 2)
    else [flag + 127] + ToBigEndian(n, 8)
  }

  function FirstByte(fin: bool, opcode: nat): Byte
    requires opcode < 16
  {
    (if fin then 128 else 0) + opcode
  }

  // What the client sends: always final and masked.
  function ClientFrame(opcode: nat, payload: Bytes, mask: Bytes): Bytes
    requires opcode < 16 && |mask| == 4 && |payload| < MAX_LENGTH
  {
    [FirstByte(true, opcode)] + LengthField(128, |payload|) + mask + Masked(payload, mask)
  }

  function ServerFrame(f: Frame): Bytes
    requires f.opcode < 16 && |f.payload| < MAX_LENGTH
  {
    [FirstByte(f.fin, f.opcode)] + LengthField(0, |f.payload|) + f.payload
  }

  // `size` bytes of header, the mask not included.
  datatype Header = Header(length: nat, size: nat, shortest: bool)

  function ReadHeader(s: Bytes): (h: Option<Header>)
    ensures h.Some? ==> 2 <= h.value.size <= |s|
  {
    if |s| < 2 then None
    else
      var short := s[1] % 128;
      if short < 126 then Some(Header(short, 2, true))
      else if short == 126 then
        if |s| < 4 then None
        else var n := FromBigEndian(s[2..4]); Some(Header(n, 4, n >= 126))
      else if |s| < 10 then None
      else var n := FromBigEndian(s[2..10]); Some(Header(n, 10, n >= 65536))
  }

  lemma HeaderRoundTrip(first: Byte, flag: Byte, n: nat, rest: Bytes)
    requires (flag == 0 || flag == 128) && n < MAX_LENGTH
    ensures var field := LengthField(flag, n);
            ReadHeader([first] + field + rest) == Some(Header(n, 1 + |field|, true))
  {
    var field := LengthField(flag, n);
    var s := [first] + field + rest;
    assert s[1] == field[0];
    if 126 <= n < 65536 {
      assert Pow256(2) == 65536;
      BigEndianRoundTrip(n, 2);
      assert s[2..4] == ToBigEndian(n, 2);
    } else if n >= 65536 {
      Pow256Of8();
      BigEndianRoundTrip(n, 8);
      assert s[2..10] == ToBigEndian(n, 8);
    }
  }

  lemma Pow256Of8()
    ensures Pow256(8) == 0x1_0000_0000_0000_0000
  {
    assert Pow256(2) == 0x1_0000;
    assert Pow256(4) == 0x1_0000_0000;
    assert Pow256(6) == 0x1_0000_0000_0000;
  }

  // The receiving side of the standard: a masked frame, with no reserved bit and
  // the shortest length form, and what follows it.
  function DecodeClient(s: Bytes): Option<(Frame, Bytes)> {
    var h := ReadHeader(s);
    if h.None? || s[0] % 128 >= 16 || s[1] < 128 || !h.value.shortest || |s| < h.value.size + 4 + h.value.length then None
    else
      var mask := s[h.value.size..h.value.size + 4];
      var end := h.value.size + 4 + h.value.length;
      Some((Frame(s[0] >= 128, s[0] % 16, Unmasked(s[h.value.size + 4..end], mask)), s[end..]))
  }

  lemma ClientFrameRoundTrip(opcode: nat, payload: Bytes, mask: Bytes, rest: Bytes)
    requires opcode < 16 && |mask| == 4 && |payload| < MAX_LENGTH
    ensures DecodeClient(ClientFrame(opcode, payload, mask) + rest) == Some((Frame(true, opcode, payload), rest))
  {
    var field := LengthField(128, |payload|);
    var body := mask + Masked(payload, mask);
    var s := ClientFrame(opcode, payload, mask) + rest;
    HeaderRoundTrip(FirstByte(true, opcode), 128, |payload|, body + rest);
    assert s == [FirstByte(true, opcode)] + field + (body + rest);
    assert s[1] == field[0];
    var size := 1 + |field|;
    var end := size + 4 + |payload|;
    assert s[size..size + 4] == mask;
    assert s[size + 4..end] == Masked(payload, mask);
    assert s[end..] == rest;
    UnmaskedBack(payload, mask);
  }

  // What the client makes of the bytes it receives; masks and reserved bits are
  // not looked at.
  function ReadFrame(s: Bytes): (r: Option<(Frame, Bytes)>)
    ensures r.Some? ==> |r.value.1| < |s| && r.value.0.opcode < 16
  {
    var h := ReadHeader(s);
    if h.None? || |s| < h.value.size + h.value.length then None
    else
      var end := h.value.size + h.value.length;
      Some((Frame(s[0] >= 128, s[0] % 16, s[h.value.size..end]), s[end..]))
  }

  lemma ServerFrameRoundTrip(f: Frame, rest: Bytes)
    requires f.opcode < 16 && |f.payload| < MAX_LENGTH
    ensures ReadFrame(ServerFrame(f) + rest) == Some((f, rest))
  {
    var field := LengthField(0, |f.payload|);
    var s := ServerFrame(f) + rest;
    HeaderRoundTrip(FirstByte(f.fin, f.opcode), 0, |f.payload|, f.payload + rest);
    assert s == [FirstByte(f.fin, f.opcode)] + field + (f.payload + rest);
    var size := 1 + |field|;
    assert s[size..size + |f.payload|] == f.payload;
    assert s[size + |f.payload|..] == rest;
  }

  // --- whole messages ---

  const CLOSE: nat := 8
  const PING: nat := 9
  const PONG: nat := 10

  // The message read, the pings met on the way, and what is left; or the end.
  datatype Reading =
    | Message(data: Bytes, pings: seq<Bytes>, rest: Bytes)
    | Closed(pings: seq<Bytes>)

  function WithPing(ping: Bytes, r: Reading): Reading {
    match r
    case Message(data, pings, rest) => Message(data, [ping] + pings, rest)
    case Closed(pings) => Closed([ping] + pings)
  }

  // Reading on with `data` collected so far.
  function ReadMessage(s: Bytes, data: Bytes): Reading
    decreases |s|
  {
    match ReadFrame(s)
    case None => Closed([])
    case Some((f, rest)) =>
      if f.opcode == CLOSE then Closed([])
      else if f.opcode == PING then WithPing(f.payload, ReadMessage(rest, data))
      else if f.opcode == PONG then ReadMessage(rest, data)
      else if f.fin then Message(data + f.payload, [], rest)
      else ReadMessage(rest, data + f.payload)
  }

  predicate IsControl(f: Frame) {
    f.opcode == PING || f.opcode == PONG
  }

  // The frames of one message: data frames of which only the last is final, with
  // pings and pongs before or between them.
  predicate IsFragmentation(frames: seq<Frame>) {
    && frames != []
    && frames[0].opcode < 16 && frames[0].opcode != CLOSE && |frames[0].payload| < MAX_LENGTH
    && (if IsControl(frames[0]) || !frames[0].fin then IsFragmentation(frames[1..]) else |frames| == 1)
  }

  function Assembled(frames: seq<Frame>): Bytes {
    if frames == [] then [] else (if IsControl(frames[0]) then [] else frames[0].payload) + Assembled(frames[1..])
  }

  function PingsOf(frames: seq<Frame>): seq<Bytes> {
    if frames == [] then []
    else (if frames[0].opcode == PING then [frames[0].payload] else []) + PingsOf(frames[1..])
  }

  function OnTheWire(frames: seq<Frame>): Bytes
    requires IsFragmentation(frames)
  {
    ServerFrame(frames[0]) + if IsControl(frames[0]) || !frames[0].fin then OnTheWire(frames[1..]) else []
  }

  // Whatever the fragmentation, the message comes back whole, with every ping
  // reported once and in order, and nothing beyond it consumed.
  lemma {:induction false} FragmentsReadBack(frames: seq<Frame>, data: Bytes, rest: Bytes)
    requires IsFragmentation(frames)
    ensures ReadMessage(OnTheWire(frames) + rest, data) == Message(data + Assembled(frames), PingsOf(frames), rest)
    decreases |frames|
  {
    var f := frames[0];
    if IsControl(f) || !f.fin {
      var tail := OnTheWire(frames[1..]) + rest;
      assert OnTheWire(frames) + rest == ServerFrame(f) + tail;
      FrameReadBack(f, tail, data);
      var next := if IsControl(f) then data else data + f.payload;
      FragmentsReadBack(frames[1..], next, rest);
      assert data + Assembled(frames) == next + Assembled(frames[1..]);
      assert f.opcode != PING ==> PingsOf(frames) == PingsOf(frames[1..]);
    } else {
      FrameReadBack(f, rest, data);
      assert OnTheWire(frames) == ServerFrame(f);
      assert frames[1..] == [] && Assembled(frames) == f.payload && PingsOf(frames) == [];
    }
  }

  // One frame read off the front.
  lemma FrameReadBack(f: Frame, rest: Bytes, data: Bytes)
    requires f.opcode < 16 && f.opcode != CLOSE && |f.payload| < MAX_LENGTH
    ensures ReadMessage(ServerFrame(f) + rest, data) ==
              if f.opcode == PING then WithPing(f.payload, ReadMessage(rest, data))
              else if f.opcode == PONG then ReadMessage(rest, data)
              else if f.fin then Message(data + f.payload, [], rest)
              else ReadMessage(rest, data + f.payload)
  {
    ServerFrameRoundTrip(f, rest);
  }

  // A frame sent: what it says, and the mask drawn for it.
  datatype Outgoing = Outgoing(opcode: nat, payload: Bytes, mask: Bytes)

  predicate Sendable(o: Outgoing) {
    o.opcode < 16 && |o.mask| == 4 && |o.payload| < MAX_LENGTH
  }

  // The bytes of the frames sent.
  function Wire(sent: seq<Outgoing>): Bytes
    requires forall o :: o in sent ==> Sendable(o)
  {
    if sent == [] then []
    else
      var o := sent[|sent| - 1];
      assert o in sent && Sendable(o);
      Wire(sent[..|sent| - 1]) + ClientFrame(o.opcode, o.payload, o.mask)
  }

  // The replies to some pings, one each in order, under the masks drawn for them.
  function Pongs(pings: seq<Bytes>, mask: nat -> Bytes, drawn: nat): seq<Outgoing> {
    if pings == [] then [] else [Outgoing(PONG, pings[0], mask(drawn))] + Pongs(pings[1..], mask, drawn + 1)
  }

  lemma FrameFits(s: Bytes)
    requires ReadFrame(s).Some?
    ensures |ReadFrame(s).value.0.payload| < MAX_LENGTH
  {
    Pow256Of8();
    assert Pow256(2) == 65536;
    if |s| >= 4 { BigEndianBelow(s[2..4]); }
    if |s| >= 10 { BigEndianBelow(s[2..10]); }
  }

  lemma {:induction false} PingsFit(s: Bytes, data: Bytes)
    ensures Fits(ReadMessage(s, data).pings)
    decreases |s|
  {
    if ReadFrame(s).Some? {
      FrameFits(s);
      var (f, rest) := ReadFrame(s).value;
      PingsFit(rest, data);
      PingsFit(rest, data + f.payload);
    }
  }

  class WsTransport {
    var stream: Bytes              // still to come from the server
    var output: Bytes              // written to the socket so far
    ghost var sent: seq<Outgoing>  // the frames that makes

    ghost predicate Valid()
      reads this
    {
      (forall o :: o in sent ==> Sendable(o)) && output == Wire(sent)
    }

    constructor (bytes: Bytes)
      ensures Valid() && stream == bytes && sent == []
    {
      stream, output, sent := bytes, [], [];
    }

    // One `recv`: any part of the stream, up to n bytes; nothing at its end.
    method Recv(n: nat) returns (chunk: Bytes)
      requires n > 0
      modifies this`stream
      ensures |chunk| <= n && old(stream) == chunk + stream && (chunk == [] ==> stream == [])
    {
      if stream == [] {
        return [];
      }
      var k :| 0 < k <= |stream| && k <= n;
      chunk, stream := stream[..k], stream[k..];
    }

    method RecvExact(n: nat) returns (r: Option<Bytes>)
      modifies this`stream
      ensures r.Some? <==> n <= |old(stream)|
      ensures r.Some? ==> r.value == old(stream)[..n] && stream == old(stream)[n..]
    {
      var buf := [];
      while |buf| < n
        invariant |buf| <= n && old(stream) == buf + stream
      {
        var chunk := Recv(n - |buf|);
        if chunk == [] {
          return None;
        }
        buf := buf + chunk;
      }
      r := Some(buf);
    }

    method RecvFrame() returns (r: Option<Frame>)
      modifies this`stream
      ensures r.Some? <==> ReadFrame(old(stream)).Some?
      ensures r.Some? ==> ReadFrame(old(stream)).value == (r.value, stream)
    {
      var first := RecvExact(2);
      if first.None? {
        return None;
      }
      var length: nat := first.value[1] % 128;
      ghost var size := 2;
      if length == 126 {
        var extended := RecvExact(2);
        if extended.None? {
          return None;
        }
        length, size := FromBigEndian(extended.value), 4;
        assert extended.value == old(stream)[2..4];
      } else if length == 127 {
        var extended := RecvExact(8);
        if extended.None? {
          return None;
        }
        length, size := FromBigEndian(extended.value), 10;
        assert extended.value == old(stream)[2..10];
      }
      assert stream == old(stream)[size..];
      var payload := RecvExact(length);
      if payload.None? {
        return None;
      }
      assert payload.value == old(stream)[size..size + length];
      r := Some(Frame(first.value[0] >= 128, first.value[0] % 16, payload.value));
    }

    method SendFrame(opcode: nat, payload: Bytes, mask: Bytes)
      requires Valid() && opcode < 16 && |mask| == 4 && |payload| < MAX_LENGTH
      modifies this`output, this`sent
      ensures Valid() && sent == old(sent) + [Outgoing(opcode, payload, mask)]
    {
      var header := [FirstByte(true, opcode)];
      var n := |payload|;
      if n < 126 {
        header := header + [128 + n];
      } else if n < 65536 {
        header := header + [254] + ToBigEndian(n, 2);
      } else {
        header := header + [255] + ToBigEndian(n, 8);
      }
      header := header + mask;
      assert header == [FirstByte(true, opcode)] + LengthField(128, n) + mask;
      output := output + (header + Masked(payload, mask));
      sent := sent + [Outgoing(opcode, payload, mask)];
      assert sent[..|sent| - 1] == old(sent);
    }

    // The next message whole, every ping before its end answered once, in order,
    // with the ping's own payload.
    method RecvLine(mask: nat -> Bytes) returns (r: Option<Bytes>)
      requires Valid() && forall k: nat :: |mask(k)| == 4
      modifies this
      ensures Valid()
      ensures var m := ReadMessage(old(stream), []);
              && (r.Some? <==> m.Message?)
              && (m.Message? ==> r.value == m.data && stream == m.rest)
              && sent == old(sent) + Pongs(m.pings, mask, 0)
    {
      var data := [];
      var drawn := 0;
      PingsFit(stream, []);
      ghost var whole := ReadMessage(stream, []);
      while true
        invariant Fits(ReadMessage(stream, data).pings)
        invariant SameEnd(whole, ReadMessage(stream, data))
        invariant Valid()
        invariant Owed(old(sent), whole.pings, sent, ReadMessage(stream, data).pings, mask, drawn)
        decreases |stream|
      {
        ghost var here := ReadMessage(stream, data);
        var frame := RecvFrame();
        if frame.None? {
          return None;
        }
        var f := frame.value;
        if f.opcode == CLOSE {
          return None;
        }
        if f.opcode == PING {
          assert here.pings == [f.payload] + ReadMessage(stream, data).pings;
          PongSent(old(sent), whole.pings, sent, f.payload, ReadMessage(stream, data).pings, mask, drawn);
          SendFrame(PONG, f.payload, mask(drawn));
          drawn := drawn + 1;
        } else if f.opcode != PONG {
          data := data + f.payload;
          if f.fin {
            return Some(data);
          }
        }
      }
    }
  }

  predicate Fits(pings: seq<Bytes>) {
    forall p :: p in pings ==> |p| < MAX_LENGTH
  }

  // Sending what is still owed for the pings ahead completes the replies to all.
  ghost predicate Owed(base: seq<Outgoing>, all: seq<Bytes>, sent: seq<Outgoing>, ahead: seq<Bytes>, mask: nat -> Bytes, drawn: nat) {
    sent + Pongs(ahead, mask, drawn) == base + Pongs(all, mask, 0)
  }

  lemma PongSent(base: seq<Outgoing>, all: seq<Bytes>, sent: seq<Outgoing>, ping: Bytes, rest: seq<Bytes>,
                 mask: nat -> Bytes, drawn: nat)
    requires Owed(base, all, sent, [ping] + rest, mask, drawn) && Fits([ping] + rest)
    ensures Owed(base, all, sent + [Outgoing(PONG, ping, mask(drawn))], rest, mask, drawn + 1)
    ensures Fits(rest) && |ping| < MAX_LENGTH
  {
    assert ([ping] + rest)[0] in [ping] + rest;
    assert forall p :: p in rest ==> p in [ping] + rest;
    assert ([ping] + rest)[1..] == rest;
    var o := Outgoing(PONG, ping, mask(drawn));
    assert sent + ([o] + Pongs(rest, mask, drawn + 1)) == sent + [o] + Pongs(rest, mask, drawn + 1);
  }

  // The same end, whatever pings were met.
  ghost predicate SameEnd(a: Reading, b: Reading) {
    && (a.Message? <==> b.Message?)
    && (a.Message? ==> a.data == b.data && a.rest == b.rest)
  }
}
