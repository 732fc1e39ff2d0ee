/** The frame codec of the readiness probe: sections 5.2 and 5.3 of RFC 6455. */
module Frames {

  type byte = bv8

  type Key = k: seq<byte> | |k| == 4 witness [0, 0, 0, 0]

  datatype Frame = Frame(fin: bool, opcode: byte, payload: seq<byte>)

  datatype Decoded = Decoded(frame: Frame, rest: seq<byte>) | TooLarge(length: nat) | Truncated

  // Lengths are written as 64-bit integers.
  const UINT64_LIMIT: nat := 0x1_0000_0000_0000_0000

  const MAX_PAYLOAD: nat := 4 * 1024 * 1024

  // ---------- big-endian lengths ----------

  function BigEndian(n: nat, width: nat): (s: seq<byte>)
    ensures |s| == width
  {
    if width == 0 then [] else BigEndian(n / 256, width - 1) + [(n % 256) as byte]
  }

  function FromBigEndian(s: seq<byte>): nat {
    if s == [] then 0 else 256 * FromBigEndian(s[..|s| - 1]) + s[|s| - 1] as nat
  }

  function Pow256(width: nat): nat {
    if width == 0 then 1 else 256 * Pow256(width - 1)
  }

  lemma Increment(b: byte)
    requires b != 0xFF
    ensures (b + 1) as nat == b as nat + 1
  {
  }

  lemma {:induction false} SomeByte(n: nat) returns (b: byte)
    requires n < 256
    ensures b as nat == n
  {
    b := 0;
    if n == 0 {
    } else {
      b := SomeByte(n - 1);
      Increment(b);
      b := b + 1;
    }
  }

  lemma LastByte(n: nat)
    requires n < 256
    ensures (n as byte) as nat == n
  {
    var b := SomeByte(n);
    assert (b as nat) as byte == b;
  }

  lemma {:induction false} BigEndianRoundTrip(n: nat, width: nat)
    requires n < Pow256(width)
    ensures FromBigEndian(BigEndian(n, width)) == n
  {
    if width == 0 {
    } else {
      var high, low := n / 256, n % 256;
      assert n == 256 * high + low;
      BigEndianRoundTrip(high, width - 1);
      var s := BigEndian(high, width - 1);
      assert (s + [low as byte])[..width - 1] == s;
      LastByte(low);
    }
  }

  // ---------- masking ----------

  function Masked(payload: seq<byte>, key: Key): (s: seq<byte>)
    ensures |s| == |payload|
    ensures forall i :: 0 <= i < |s| ==> s[i] == payload[i] ^ key[i % 4]
  {
    seq(|payload|, i requires 0 <= i < |payload| => payload[i] ^ key[i % 4])
  }

  lemma XorTwice(a: byte, b: byte)
    ensures (a ^ b) ^ b == a
  {
  }

  lemma MaskingIsAnInvolution(payload: seq<byte>, key: Key)
    ensures Masked(Masked(payload, key), key) == payload
  {
    forall i | 0 <= i < |payload| ensures Masked(Masked(payload, key), key)[i] == payload[i] {
      XorTwice(payload[i], key[i % 4]);
    }
  }

  // ---------- the two directions ----------

  // The second header byte and the extended length.
  function LengthField(length: nat, maskBit: byte): (s: seq<byte>)
    ensures |s| >= 1
  {
    if length < 126 then [maskBit | (length as byte)]
    else if length <= 65535 then [maskBit | 126] + BigEndian(length, 2)
    else [maskBit | 127] + BigEndian(length, 8)
  }

  datatype Mask = NoMask | WithKey(key: Key)

  // A frame on the wire.
  function Wire(f: Frame, mask: Mask): seq<byte> {
    [(if f.fin then 0x80 else 0) | f.opcode]
    + LengthField(|f.payload|, if mask.NoMask? then 0 else 0x80)
    + (KeyBytes(mask) + Body(f.payload, mask))
  }

  function KeyBytes(mask: Mask): seq<byte> {
    if mask.NoMask? then [] else mask.key
  }

  function Body(payload: seq<byte>, mask: Mask): seq<byte> {
    if mask.NoMask? then payload else Masked(payload, mask.key)
  }

  function Extended(second: byte): nat {
    if second & 0x7F == 126 then 2 else if second & 0x7F == 127 then 8 else 0
  }

  function LengthOf(second: byte, extended: seq<byte>): nat {
    if Extended(second) == 0 then (second & 0x7F) as nat else FromBigEndian(extended)
  }

  function Decode(s: seq<byte>): (d: Decoded)
    ensures d.Decoded? ==> |d.rest| < |s|
  {
    if |s| < 2 then Truncated else DecodeLength(s[0], s[1], s[2..])
  }

  function DecodeLength(first: byte, second: byte, s: seq<byte>): (d: Decoded)
    ensures d.Decoded? ==> |d.rest| <= |s|
  {
    var extended := Extended(second);
    if |s| < extended then Truncated
    else
      var length := LengthOf(second, s[..extended]);
      if length > MAX_PAYLOAD then TooLarge(length)
      else DecodeBody(first, second & 0x80 != 0, length, s[extended..])
  }

  function DecodeBody(first: byte, masked: bool, length: nat, s: seq<byte>): (d: Decoded)
    ensures d.Decoded? ==> |d.rest| <= |s|
  {
    if masked then
      if |s| < 4 then Truncated
      else if |s[4..]| < length then Truncated
      else Decoded(Frame(first & 0x80 != 0, first & 0x0F, Masked(s[4..][..length], s[..4])), s[4..][length..])
    else if |s| < length then Truncated
    else Decoded(Frame(first & 0x80 != 0, first & 0x0F, s[..length]), s[length..])
  }

  lemma FirstByte(fin: bool, opcode: byte)
    ensures ((if fin then 0x80 else 0) | opcode) & 0x80 != 0 <==> fin || opcode >= 128
    ensures ((if fin then 0x80 else 0) | opcode) & 0x0F == opcode & 0x0F
  {
  }

  lemma SmallLength(n: nat, bit: byte)
    requires n < 128 && (bit == 0 || bit == 0x80)
    ensures (bit | (n as byte)) & 0x7F == n as byte
    ensures (bit | (n as byte)) & 0x80 == bit
  {
    LastByte(n);
    assert n as byte < 128;
  }

  lemma OpcodeBits(opcode: byte)
    ensures opcode & 0x0F == opcode <==> opcode < 16
  {
  }

  lemma LongLengthReads(length: nat, bit: byte, code: byte, width: nat)
    requires (code == 126 && width == 2 && length < 65536) || (code == 127 && width == 8 && length < UINT64_LIMIT)
    requires bit == 0 || bit == 0x80
    ensures (bit | code) & 0x7F == code && (bit | code) & 0x80 == bit
    ensures LengthOf(bit | code, BigEndian(length, width)) == length
  {
    assert Pow256(2) == 0x1_0000 && Pow256(4) == 0x1_0000_0000 && Pow256(6) == 0x1_0000_0000_0000;
    assert Pow256(8) == UINT64_LIMIT;
    BigEndianRoundTrip(length, width);
  }

  ghost predicate ReadsBack(field: seq<byte>, length: nat, bit: byte) {
    && |field| >= 1
    && |field| == 1 + Extended(field[0])
    && field[0] & 0x80 == bit
    && length == LengthOf(field[0], field[1..])
  }

  lemma LongFieldReads(length: nat, bit: byte, code: byte, width: nat)
    requires (code == 126 && width == 2 && length < 65536) || (code == 127 && width == 8 && length < UINT64_LIMIT)
    requires bit == 0 || bit == 0x80
    ensures ReadsBack([bit | code] + BigEndian(length, width), length, bit)
  {
    LongLengthReads(length, bit, code, width);
    var field := [bit | code] + BigEndian(length, width);
    assert field[1..] == BigEndian(length, width);
  }

  lemma ShortFieldReads(length: nat, bit: byte)
    requires length < 126 && (bit == 0 || bit == 0x80)
    ensures ReadsBack([bit | (length as byte)], length, bit)
  {
    SmallLength(length, bit);
    LastByte(length);
    assert length as byte != 126 && length as byte != 127;
  }

  // The length field is read back, whichever of its three forms it takes.
  lemma LengthFieldReads(length: nat, bit: byte)
    requires length < UINT64_LIMIT && (bit == 0 || bit == 0x80)
    ensures ReadsBack(LengthField(length, bit), length, bit)
  {
    if length < 126 {
      ShortFieldReads(length, bit);
    } else if length <= 65535 {
      LongFieldReads(length, bit, 126, 2);
    } else {
      LongFieldReads(length, bit, 127, 8);
    }
  }

  lemma DecodesBody(first: byte, length: nat, key: seq<byte>, body: seq<byte>, rest: seq<byte>)
    requires |body| == length && (|key| == 0 || |key| == 4)
    ensures DecodeBody(first, |key| == 4, length, key + (body + rest)) ==
            Decoded(Frame(first & 0x80 != 0, first & 0x0F, if |key| == 4 then Masked(body, key) else body), rest)
  {
    var s := key + (body + rest);
    assert s[|key|..] == body + rest;
    assert (body + rest)[..length] == body && (body + rest)[length..] == rest;
    if |key| == 4 {
      assert s[..4] == key;
    } else {
      assert s == body + rest;
    }
  }

  lemma DecodesLength(first: byte, field: seq<byte>, length: nat, s: seq<byte>)
    requires |field| >= 1 && ReadsBack(field, length, field[0] & 0x80)
    ensures Decode([first] + (field + s)) ==
            if length > MAX_PAYLOAD then TooLarge(length) else DecodeBody(first, field[0] & 0x80 != 0, length, s)
  {
    var t := [first] + (field + s);
    assert t[0] == first && t[1] == field[0] && t[2..] == field[1..] + s;
    assert (field[1..] + s)[..Extended(field[0])] == field[1..] && (field[1..] + s)[Extended(field[0])..] == s;
  }

  lemma Regroup(a: seq<byte>, b: seq<byte>, c: seq<byte>, d: seq<byte>, e: seq<byte>)
    ensures a + b + (c + d) + e == a + (b + (c + (d + e)))
  {
  }

  // A frame on the wire, in the order in which it is read.
  lemma WireParts(f: Frame, mask: Mask, rest: seq<byte>)
    ensures var first: byte := (if f.fin then 0x80 else 0) | f.opcode;
            var field := LengthField(|f.payload|, if mask.NoMask? then 0 else 0x80);
            Wire(f, mask) + rest == [first] + (field + (KeyBytes(mask) + (Body(f.payload, mask) + rest)))
  {
    var first: byte := (if f.fin then 0x80 else 0) | f.opcode;
    var field := LengthField(|f.payload|, if mask.NoMask? then 0 else 0x80);
    Regroup([first], field, KeyBytes(mask), Body(f.payload, mask), rest);
  }

  // Whether a key follows, and the body that comes back.
  lemma BodyReads(first: byte, payload: seq<byte>, mask: Mask, rest: seq<byte>)
    ensures DecodeBody(first, mask.WithKey?, |payload|, KeyBytes(mask) + (Body(payload, mask) + rest)) ==
            Decoded(Frame(first & 0x80 != 0, first & 0x0F, payload), rest)
  {
    DecodesBody(first, |payload|, KeyBytes(mask), Body(payload, mask), rest);
    if mask.WithKey? {
      MaskingIsAnInvolution(payload, mask.key);
    }
  }

  lemma LengthReads(first: byte, length: nat, masked: bool, s: seq<byte>)
    requires length < UINT64_LIMIT
    ensures Decode([first] + (LengthField(length, if masked then 0x80 else 0) + s)) ==
            if length > MAX_PAYLOAD then TooLarge(length) else DecodeBody(first, masked, length, s)
  {
    var bit: byte := if masked then 0x80 else 0;
    LengthFieldReads(length, bit);
    hide DecodeLength, LengthField;
    DecodesLength(first, LengthField(length, bit), length, s);
  }

  /** Reading a written frame returns the frame and exactly the bytes behind it, across the three
      length encodings and with or without a mask; only a payload beyond 4 MiB is refused. */
  lemma RoundTrip(f: Frame, mask: Mask, rest: seq<byte>)
    requires |f.payload| < UINT64_LIMIT
    ensures Decode(Wire(f, mask) + rest) ==
            if |f.payload| > 0x40_0000 then TooLarge(|f.payload|)
            else Decoded(Frame(f.fin || f.opcode >= 128, f.opcode & 0x0F, f.payload), rest)
  {
    hide Decode, DecodeBody, LengthField, Wire;
    var first: byte := (if f.fin then 0x80 else 0) | f.opcode;
    WireParts(f, mask, rest);
    LengthReads(first, |f.payload|, mask.WithKey?, KeyBytes(mask) + (Body(f.payload, mask) + rest));
    BodyReads(first, f.payload, mask, rest);
    FirstByte(f.fin, f.opcode);
  }

  /** A length may also come in a longer form than it needs. */
  lemma LongFormsRead(first: byte, length: nat, masked: bool, wide: bool, s: seq<byte>)
    requires length < if wide then UINT64_LIMIT else 65536
    ensures var bit: byte := if masked then 0x80 else 0;
            var field := [bit | if wide then 127 else 126] + BigEndian(length, if wide then 8 else 2);
            Decode([first] + (field + s)) ==
            if length > MAX_PAYLOAD then TooLarge(length) else DecodeBody(first, masked, length, s)
  {
    var bit: byte := if masked then 0x80 else 0;
    var code: byte := if wide then 127 else 126;
    LongFieldReads(length, bit, code, if wide then 8 else 2);
    hide DecodeLength, DecodeBody;
    DecodesLength(first, [bit | code] + BigEndian(length, if wide then 8 else 2), length, s);
  }

  const HELLO: seq<byte> := [0x48, 0x65, 0x6c, 0x6c, 0x6f]

  const EXAMPLE_KEY: Key := [0x37, 0xfa, 0x21, 0x3d]

  // The length fields and the masked text of the examples below.
  lemma ExampleParts()
    ensures LengthField(5, 0) == [0x05] && LengthField(5, 0x80) == [0x85]
    ensures LengthField(3, 0) == [0x03] && LengthField(2, 0) == [0x02]
    ensures Masked(HELLO, EXAMPLE_KEY) == [0x7f, 0x9f, 0x4d, 0x51, 0x58]
  {
    var masked := Masked(HELLO, EXAMPLE_KEY);
    assert masked == [HELLO[0] ^ EXAMPLE_KEY[0], HELLO[1] ^ EXAMPLE_KEY[1], HELLO[2] ^ EXAMPLE_KEY[2],
                      HELLO[3] ^ EXAMPLE_KEY[3], HELLO[4] ^ EXAMPLE_KEY[0]];
  }

  lemma Length256()
    ensures BigEndian(256, 2) == [0x01, 0x00]
  {
    assert BigEndian(1, 1) == BigEndian(0, 0) + [0x01];
  }

  lemma Length65536()
    ensures BigEndian(65536, 8) == [0x00, 0x00, 0x00, 0x00, 0x00, 0x01, 0x00, 0x00]
  {
    Zeros(5);
    assert BigEndian(1, 6) == BigEndian(0, 5) + [0x01];
    assert BigEndian(256, 7) == BigEndian(1, 6) + [0x00];
  }

  /** The lengths of 256 bytes and of 64 KiB in section 5.7 of RFC 6455. */
  lemma Rfc6455Lengths()
    ensures LengthField(256, 0) == [0x7e, 0x01, 0x00]
    ensures LengthField(65536, 0) == [0x7f, 0x00, 0x00, 0x00, 0x00, 0x00, 0x01, 0x00, 0x00]
  {
    Length256();
    Length65536();
    hide BigEndian;
  }

  lemma {:induction false} Zeros(width: nat)
    ensures BigEndian(0, width) == seq(width, i => 0x00)
  {
    if width == 0 {
    } else {
      Zeros(width - 1);
    }
  }

  /** The frames of section 5.7 of RFC 6455, byte by byte: a text message, unmasked and masked, in two fragments, and a
      ping with its masked answer. */
  lemma Rfc6455Frames()
    ensures Wire(Frame(true, 0x1, HELLO), NoMask) == [0x81, 0x05] + HELLO
    ensures Wire(Frame(true, 0x1, HELLO), WithKey(EXAMPLE_KEY)) ==
            [0x81, 0x85] + EXAMPLE_KEY + [0x7f, 0x9f, 0x4d, 0x51, 0x58]
    ensures Wire(Frame(false, 0x1, [0x48, 0x65, 0x6c]), NoMask) == [0x01, 0x03, 0x48, 0x65, 0x6c]
    ensures Wire(Frame(true, 0x0, [0x6c, 0x6f]), NoMask) == [0x80, 0x02, 0x6c, 0x6f]
    ensures Wire(Frame(true, 0x9, HELLO), NoMask) == [0x89, 0x05] + HELLO
    ensures Wire(Frame(true, 0xA, HELLO), WithKey(EXAMPLE_KEY)) ==
            [0x8a, 0x85] + EXAMPLE_KEY + [0x7f, 0x9f, 0x4d, 0x51, 0x58]
  {
    ExampleParts();
    hide LengthField, Masked;
  }

  /** A client frame is read back as it was written exactly when its opcode fits in four bits and its
      payload in 4 MiB. */
  lemma ClientFrameRoundTrip(opcode: byte, key: Key, payload: seq<byte>, rest: seq<byte>)
    requires |payload| < UINT64_LIMIT
    ensures Decode(Wire(Frame(true, opcode, payload), WithKey(key)) + rest) ==
              Decoded(Frame(true, opcode, payload), rest)
            <==> opcode < 16 && |payload| <= MAX_PAYLOAD
  {
    RoundTrip(Frame(true, opcode, payload), WithKey(key), rest);
    OpcodeBits(opcode);
  }
}

/** The reader loop of the readiness probe: sections 5.4 and 5.5 of RFC 6455. */
module Session {
  import opened Frames

  datatype Outcome =
    | SessionCreated
    | ServerClosed
    | UnexpectedData
    | UnexpectedContinuation
    | Unsupported
    | ReadFailed
    | WriteFailed

  // The two variables of the loop.
  datatype Reader = Reader(fragments: seq<byte>, opcode: byte)

  const IDLE := Reader([], 0)

  datatype Reaction = Continue(reader: Reader) | Reply(payload: seq<byte>) | Stop(outcome: Outcome)

  // Whether a text message is the awaited event.
  type Test = seq<byte> -> bool

  function React(isCreated: Test, r: Reader, f: Frame): Reaction {
    if f.opcode == 0x8 then Stop(ServerClosed)
    else if f.opcode == 0x9 then Reply(f.payload)
    else if f.opcode == 0xA then Continue(r)
    else if f.opcode == 0x1 || f.opcode == 0x2 then
      if |r.fragments| != 0 then Stop(UnexpectedData) else Finish(isCreated, Reader(f.payload, f.opcode), f.fin)
    else if f.opcode == 0x0 then
      if |r.fragments| == 0 || r.opcode == 0 then Stop(UnexpectedContinuation)
      else Finish(isCreated, Reader(r.fragments + f.payload, r.opcode), f.fin)
    else Stop(Unsupported)
  }

  function Finish(isCreated: Test, r: Reader, fin: bool): Reaction {
    if !fin then Continue(r)
    else if r.opcode == 0x1 && isCreated(r.fragments) then Stop(SessionCreated)
    else Continue(IDLE)
  }

  // ---------- the loop over bytes ----------

  datatype Served = Served(outcome: Outcome, written: seq<byte>)

  // The loop as a function of the bytes that arrive. keys are the masking keys, used in order.
  function Serve(isCreated: Test, broken: bool, r: Reader, input: seq<byte>, keys: nat -> Key, n: nat): Served
    decreases |input|
  {
    var d := Decode(input);
    if !d.Decoded? then Served(ReadFailed, [])
    else
      match React(isCreated, r, d.frame)
      case Stop(outcome) => Served(outcome, [])
      case Continue(next) => Serve(isCreated, broken, next, d.rest, keys, n)
      case Reply(payload) =>
        if broken then Served(WriteFailed, [])
        else
          var others := Serve(isCreated, broken, r, d.rest, keys, n + 1);
          Served(others.outcome, Wire(Frame(true, 0xA, payload), WithKey(keys(n))) + others.written)
  }

  /** A connection: the bytes still to be read, the bytes written, and whether writing fails. */
  class Connection {
    var input: seq<byte>
    var output: seq<byte>
    const broken: bool

    constructor (input: seq<byte>, broken: bool)
      ensures this.input == input && this.output == [] && this.broken == broken
    {
      this.input, this.output, this.broken := input, [], broken;
    }

    method ReadFull(count: nat) returns (ok: bool, bytes: seq<byte>)
      modifies `input
      ensures ok <==> |old(input)| >= count
      ensures ok ==> bytes == old(input)[..count] && input == old(input)[count..]
      ensures !ok ==> input == []
    {
      ok := |input| >= count;
      if ok {
        bytes, input := input[..count], input[count..];
      } else {
        bytes, input := [], [];
      }
    }

    method Write(bytes: seq<byte>) returns (ok: bool)
      modifies `output
      ensures ok == !broken
      ensures output == if ok then old(output) + bytes else old(output)
    {
      ok := !broken;
      if ok {
        output := output + bytes;
      }
    }

    method ReadLength(second: byte) returns (ok: bool, length: nat)
      modifies `input
      ensures ok <==> |old(input)| >= Extended(second)
      ensures ok ==> length == LengthOf(second, old(input)[..Extended(second)])
      ensures ok ==> input == old(input)[Extended(second)..]
    {
      ok, length := true, (second & 0x7F) as nat;
      if length == 126 {
        var extended;
        ok, extended := ReadFull(2);
        length := FromBigEndian(extended);
      } else if length == 127 {
        var extended;
        ok, extended := ReadFull(8);
        length := FromBigEndian(extended);
      }
    }

    method ReadBody(first: byte, masked: bool, length: nat) returns (ok: bool, frame: Frame)
      modifies `input
      ensures ok <==> DecodeBody(first, masked, length, old(input)).Decoded?
      ensures ok ==> DecodeBody(first, masked, length, old(input)) == Decoded(frame, input)
    {
      frame := Frame(false, 0, []);
      var key: Key := [0, 0, 0, 0];
      if masked {
        var bytes;
        ok, bytes := ReadFull(4);
        if !ok { return; }
        key := bytes;
      }
      var payload;
      ok, payload := ReadFull(length);
      if !ok { return; }
      if masked {
        payload := ApplyMask(payload, key);
      }
      frame := Frame(first & 0x80 != 0, first & 0x0F, payload);
    }

    method ReadFrame() returns (ok: bool, frame: Frame)
      modifies `input
      ensures ok <==> Decode(old(input)).Decoded?
      ensures ok ==> Decode(old(input)) == Decoded(frame, input)
    {
      frame := Frame(false, 0, []);
      var two;
      ok, two := ReadFull(2);
      if !ok { return; }
      var length;
      ok, length := ReadLength(two[1]);
      if !ok { return; }
      if length > MAX_PAYLOAD {
        ok := false;
        return;
      }
      ok, frame := ReadBody(two[0], two[1] & 0x80 != 0, length);
    }

    method ClientHeader(opcode: byte, length: nat) returns (header: seq<byte>)
      ensures header == [0x80 | opcode] + LengthField(length, 0x80)
    {
      header := [0x80 | opcode, 0x80];
      if length < 126 {
        header := [header[0], header[1] | (length as byte)];
      } else if length <= 65535 {
        header := [header[0], header[1] | 126] + BigEndian(length, 2);
      } else {
        header := [header[0], header[1] | 127] + BigEndian(length, 8);
      }
    }

    method WriteClientFrame(opcode: byte, payload: seq<byte>, key: Key) returns (ok: bool)
      modifies `output
      ensures ok == !broken
      ensures output == if ok then old(output) + Wire(Frame(true, opcode, payload), WithKey(key)) else old(output)
    {
      var header := ClientHeader(opcode, |payload|);
      header := header + key;
      var maskedPayload := ApplyMask(payload, key);
      ok := Write(header);
      if !ok { return; }
      ok := Write(maskedPayload);
      ClientWire(old(output), opcode, payload, key);
    }

    /** Reads frames until the session is created or something goes wrong. */
    method WaitForSessionCreated(isCreated: Test, keys: nat -> Key) returns (outcome: Outcome)
      modifies this
      ensures var served := Serve(isCreated, broken, IDLE, old(input), keys, 0);
              outcome == served.outcome && output == old(output) + served.written
    {
      var r, n := IDLE, 0;
      ghost var served := Serve(isCreated, broken, IDLE, input, keys, 0);
      while true
        invariant served.outcome == Serve(isCreated, broken, r, input, keys, n).outcome
        invariant output + Serve(isCreated, broken, r, input, keys, n).written == old(output) + served.written
        decreases |input|
      {
        var ok, frame := ReadFrame();
        if !ok { return ReadFailed; }
        match React(isCreated, r, frame) {
          case Stop(reason) => return reason;
          case Continue(next) => r := next;
          case Reply(payload) =>
            ok := WriteClientFrame(0xA, payload, keys(n));
            if !ok { return WriteFailed; }
            n := n + 1;
        }
      }
    }
  }

  // The two writes of a client frame make one frame on the wire.
  lemma ClientWire(output: seq<byte>, opcode: byte, payload: seq<byte>, key: Key)
    ensures output + ([0x80 | opcode] + LengthField(|payload|, 0x80) + key) + Masked(payload, key) ==
            output + Wire(Frame(true, opcode, payload), WithKey(key))
  {
    var field, body := LengthField(|payload|, 0x80), Masked(payload, key);
    assert Wire(Frame(true, opcode, payload), WithKey(key)) == [0x80 | opcode] + field + (key + body);
    hide LengthField, Masked, Wire;
    Regroup(output, [0x80 | opcode], field, key, body);
  }

  // The masking loop, in place on a copy of the payload.
  method ApplyMask(payload: seq<byte>, key: Key) returns (masked: seq<byte>)
    ensures masked == Masked(payload, key)
    ensures |masked| == |payload| && forall i :: 0 <= i < |payload| ==> masked[i] == payload[i] ^ key[i % 4]
  {
    var buffer := new byte[|payload|](i requires 0 <= i < |payload| => payload[i]);
    for i := 0 to buffer.Length
      invariant forall j :: 0 <= j < i ==> buffer[j] == payload[j] ^ key[j % 4]
      invariant forall j :: i <= j < buffer.Length ==> buffer[j] == payload[j]
    {
      buffer[i] := buffer[i] ^ key[i % 4];
    }
    masked := buffer[..];
  }
}

/** What the reader loop makes of a legal stream of messages, fragmented and interleaved with control
    frames. */
module Reassembly {
  import opened Frames
  import opened Session

  datatype Control = Ping(payload: seq<byte>) | Pong(payload: seq<byte>)

  // A fragment and the control frames that arrive before it.
  datatype Piece = Piece(before: seq<Control>, data: seq<byte>)

  datatype Message = Message(opcode: byte, pieces: seq<Piece>)

  // Section 5.4: a message has at least one fragment and is text or binary.
  predicate Legal(m: Message) {
    |m.pieces| >= 1 && (m.opcode == 0x1 || m.opcode == 0x2)
  }

  // Fragmented, with nothing in the first fragment.
  predicate StartsEmpty(m: Message)
    requires Legal(m)
  {
    |m.pieces| > 1 && m.pieces[0].data == []
  }

  function ControlFrame(c: Control): Frame {
    Frame(true, if c.Ping? then 0x9 else 0xA, c.payload)
  }

  function ControlFrames(cs: seq<Control>): seq<Frame> {
    if cs == [] then [] else [ControlFrame(cs[0])] + ControlFrames(cs[1..])
  }

  // The fragments from the first one given; opcode is the one its frame carries.
  function PieceFrames(opcode: byte, pieces: seq<Piece>): seq<Frame> {
    if pieces == [] then []
    else
      ControlFrames(pieces[0].before) + [Frame(|pieces| == 1, opcode, pieces[0].data)] + PieceFrames(0x0, pieces[1..])
  }

  function StreamFrames(ms: seq<Message>): seq<Frame> {
    if ms == [] then [] else PieceFrames(ms[0].opcode, ms[0].pieces) + StreamFrames(ms[1..])
  }

  function Text(pieces: seq<Piece>): seq<byte> {
    if pieces == [] then [] else pieces[0].data + Text(pieces[1..])
  }

  function Pings(cs: seq<Control>): seq<seq<byte>> {
    if cs == [] then [] else (if cs[0].Ping? then [cs[0].payload] else []) + Pings(cs[1..])
  }

  function PiecePings(pieces: seq<Piece>): seq<seq<byte>> {
    if pieces == [] then [] else Pings(pieces[0].before) + PiecePings(pieces[1..])
  }

  // ---------- the loop over frames ----------

  datatype Fed = Ended(pongs: seq<seq<byte>>, outcome: Outcome) | Waiting(pongs: seq<seq<byte>>, reader: Reader)

  function Answer(pongs: seq<seq<byte>>, others: Fed): Fed {
    match others
    case Ended(p, outcome) => Ended(pongs + p, outcome)
    case Waiting(p, reader) => Waiting(pongs + p, reader)
  }

  function Feed(isCreated: Test, r: Reader, fs: seq<Frame>): Fed
    decreases |fs|
  {
    if fs == [] then Waiting([], r)
    else
      match React(isCreated, r, fs[0])
      case Stop(outcome) => Ended([], outcome)
      case Continue(next) => Feed(isCreated, next, fs[1..])
      case Reply(payload) => Answer([payload], Feed(isCreated, r, fs[1..]))
  }

  lemma {:induction false} FeedAppend(isCreated: Test, r: Reader, a: seq<Frame>, b: seq<Frame>)
    ensures Feed(isCreated, r, a + b) ==
            var first := Feed(isCreated, r, a);
            if first.Ended? then first else Answer(first.pongs, Feed(isCreated, first.reader, b))
    decreases |a|
  {
    if a == [] {
      assert a + b == b;
    } else {
      assert (a + b)[0] == a[0] && (a + b)[1..] == a[1..] + b;
      var reaction := React(isCreated, r, a[0]);
      if !reaction.Stop? {
        FeedAppend(isCreated, if reaction.Continue? then reaction.reader else r, a[1..], b);
      }
    }
  }

  lemma {:induction false} FeedControls(isCreated: Test, r: Reader, cs: seq<Control>)
    ensures Feed(isCreated, r, ControlFrames(cs)) == Waiting(Pings(cs), r)
  {
    if cs == [] {
    } else {
      FeedControls(isCreated, r, cs[1..]);
      assert ControlFrames(cs)[1..] == ControlFrames(cs[1..]);
    }
  }

  // Where a completed message leaves the loop.
  function Completed(isCreated: Test, pongs: seq<seq<byte>>, opcode: byte, text: seq<byte>): Fed {
    if opcode == 0x1 && isCreated(text) then Ended(pongs, SessionCreated) else Waiting(pongs, IDLE)
  }

  function Reacted(reaction: Reaction, r: Reader): Fed {
    match reaction
    case Stop(outcome) => Ended([], outcome)
    case Continue(next) => Waiting([], next)
    case Reply(payload) => Waiting([payload], r)
  }

  lemma FeedOne(isCreated: Test, r: Reader, f: Frame)
    ensures Feed(isCreated, r, [f]) == Reacted(React(isCreated, r, f), r)
  {
    assert [f][1..] == [];
  }

  // One fragment with its control frames, and what follows it.
  lemma FeedPiece(isCreated: Test, r: Reader, opcode: byte, pieces: seq<Piece>)
    requires pieces != [] && opcode != 0x9
    ensures Feed(isCreated, r, PieceFrames(opcode, pieces)) ==
            var reacted := Reacted(React(isCreated, r, Frame(|pieces| == 1, opcode, pieces[0].data)), r);
            Answer(Pings(pieces[0].before),
                   if reacted.Ended? then reacted else Feed(isCreated, reacted.reader, PieceFrames(0x0, pieces[1..])))
  {
    var controls, f := ControlFrames(pieces[0].before), Frame(|pieces| == 1, opcode, pieces[0].data);
    var others := PieceFrames(0x0, pieces[1..]);
    assert PieceFrames(opcode, pieces) == controls + [f] + others;
    FeedControls(isCreated, r, pieces[0].before);
    FeedOne(isCreated, r, f);
    hide Feed, React, PieceFrames, ControlFrames, Pings;
    FeedAppend(isCreated, r, controls + [f], others);
    FeedAppend(isCreated, r, controls, [f]);
  }

  // What a continuation fragment of an open message does.
  lemma ContinuationReacts(isCreated: Test, r: Reader, f: Frame)
    requires r.fragments != [] && r.opcode != 0 && f.opcode == 0x0
    ensures var next := Reader(r.fragments + f.payload, r.opcode);
            Reacted(React(isCreated, r, f), r) ==
            if f.fin then Completed(isCreated, [], r.opcode, next.fragments) else Waiting([], next)
  {
  }

  // A continuation fragment with its control frames.
  lemma FeedContinuation(isCreated: Test, r: Reader, pieces: seq<Piece>)
    requires pieces != [] && r.fragments != [] && r.opcode != 0
    ensures var next := Reader(r.fragments + pieces[0].data, r.opcode);
            Feed(isCreated, r, PieceFrames(0x0, pieces)) ==
            if |pieces| == 1 then Completed(isCreated, Pings(pieces[0].before), r.opcode, next.fragments)
            else Answer(Pings(pieces[0].before), Feed(isCreated, next, PieceFrames(0x0, pieces[1..])))
  {
    FeedPiece(isCreated, r, 0x0, pieces);
    ContinuationReacts(isCreated, r, Frame(|pieces| == 1, 0x0, pieces[0].data));
    hide React;
    if |pieces| == 1 {
      assert PieceFrames(0x0, pieces[1..]) == [];
    }
  }

  // The continuation fragments of an open message.
  lemma {:induction false} FeedContinuations(isCreated: Test, r: Reader, pieces: seq<Piece>)
    requires pieces != [] && r.fragments != [] && r.opcode != 0
    ensures Feed(isCreated, r, PieceFrames(0x0, pieces)) ==
            Completed(isCreated, PiecePings(pieces), r.opcode, r.fragments + Text(pieces))
    decreases |pieces|
  {
    FeedContinuation(isCreated, r, pieces);
    hide Feed, PieceFrames;
    var next := Reader(r.fragments + pieces[0].data, r.opcode);
    if |pieces| == 1 {
      assert PiecePings(pieces) == Pings(pieces[0].before);
      assert Text(pieces) == pieces[0].data;
    } else {
      FeedContinuations(isCreated, next, pieces[1..]);
      assert next.fragments + Text(pieces[1..]) == r.fragments + Text(pieces);
    }
  }

  // What one message leads to.
  function AfterMessage(isCreated: Test, m: Message): Fed
    requires Legal(m)
  {
    if StartsEmpty(m) then Ended(Pings(m.pieces[0].before) + Pings(m.pieces[1].before), UnexpectedContinuation)
    else Completed(isCreated, PiecePings(m.pieces), m.opcode, Text(m.pieces))
  }

  lemma FeedMessage(isCreated: Test, m: Message)
    requires Legal(m)
    ensures Feed(isCreated, IDLE, PieceFrames(m.opcode, m.pieces)) == AfterMessage(isCreated, m)
  {
    var first := m.pieces[0];
    FeedPiece(isCreated, IDLE, m.opcode, m.pieces);
    if |m.pieces| == 1 {
      assert PieceFrames(0x0, m.pieces[1..]) == [] && Text(m.pieces) == first.data;
      assert PiecePings(m.pieces) == Pings(first.before);
    } else if first.data == [] {
      FeedPiece(isCreated, Reader([], m.opcode), 0x0, m.pieces[1..]);
    } else {
      FeedContinuations(isCreated, Reader(first.data, m.opcode), m.pieces[1..]);
    }
  }

  /** The messages one after the other: the first text message that is the awaited event ends the
      wait, unless a message before it was fragmented behind an empty first fragment. */
  function AfterMessages(isCreated: Test, ms: seq<Message>): Fed
    requires forall m :: m in ms ==> Legal(m)
  {
    if ms == [] then Waiting([], IDLE)
    else
      var first := AfterMessage(isCreated, ms[0]);
      if first.Ended? then first else Answer(first.pongs, AfterMessages(isCreated, ms[1..]))
  }

  lemma {:induction false} FeedStream(isCreated: Test, ms: seq<Message>)
    requires forall m :: m in ms ==> Legal(m)
    ensures Feed(isCreated, IDLE, StreamFrames(ms)) == AfterMessages(isCreated, ms)
  {
    if ms == [] {
    } else {
      FeedAppend(isCreated, IDLE, PieceFrames(ms[0].opcode, ms[0].pieces), StreamFrames(ms[1..]));
      FeedMessage(isCreated, ms[0]);
      FeedStream(isCreated, ms[1..]);
    }
  }

  // ---------- and over bytes ----------

  // The frames on the wire, in front of the rest of the input.
  function WireAll(fs: seq<Frame>, masks: seq<Mask>, rest: seq<byte>): seq<byte>
    requires |masks| == |fs|
    decreases |fs|
  {
    if fs == [] then rest else Wire(fs[0], masks[0]) + WireAll(fs[1..], masks[1..], rest)
  }

  ghost predicate Sendable(f: Frame) {
    f.opcode < 16 && |f.payload| <= MAX_PAYLOAD
  }

  // The pong frames for the given ping payloads.
  function PongWires(pongs: seq<seq<byte>>, keys: nat -> Key, n: nat): seq<byte> {
    if pongs == [] then [] else Wire(Frame(true, 0xA, pongs[0]), WithKey(keys(n))) + PongWires(pongs[1..], keys, n + 1)
  }

  // What the byte loop does, given what the frame loop makes of the frames at the front of the input.
  function Resume(isCreated: Test, fed: Fed, rest: seq<byte>, keys: nat -> Key, n: nat): Served {
    match fed
    case Ended(pongs, outcome) => Served(outcome, PongWires(pongs, keys, n))
    case Waiting(pongs, reader) =>
      var others := Serve(isCreated, false, reader, rest, keys, n + |pongs|);
      Served(others.outcome, PongWires(pongs, keys, n) + others.written)
  }

  lemma ResumeNone(isCreated: Test, r: Reader, rest: seq<byte>, keys: nat -> Key, n: nat)
    ensures Resume(isCreated, Waiting([], r), rest, keys, n) == Serve(isCreated, false, r, rest, keys, n)
  {
    var written := Serve(isCreated, false, r, rest, keys, n).written;
    assert PongWires([], keys, n) + written == written;
  }

  lemma ResumeAnswer(isCreated: Test, payload: seq<byte>, fed: Fed, rest: seq<byte>, keys: nat -> Key, n: nat)
    ensures Resume(isCreated, Answer([payload], fed), rest, keys, n) ==
            var others := Resume(isCreated, fed, rest, keys, n + 1);
            Served(others.outcome, Wire(Frame(true, 0xA, payload), WithKey(keys(n))) + others.written)
  {
    MorePongs(payload, fed.pongs, keys, n);
    hide PongWires, Serve, Wire;
    if fed.Waiting? {
      assert n + |[payload] + fed.pongs| == n + 1 + |fed.pongs|;
      var others := Serve(isCreated, false, fed.reader, rest, keys, n + 1 + |fed.pongs|);
      Regrouped(Wire(Frame(true, 0xA, payload), WithKey(keys(n))), PongWires(fed.pongs, keys, n + 1), others.written);
    }
  }

  lemma MorePongs(payload: seq<byte>, pongs: seq<seq<byte>>, keys: nat -> Key, n: nat)
    ensures PongWires([payload] + pongs, keys, n) ==
              Wire(Frame(true, 0xA, payload), WithKey(keys(n))) + PongWires(pongs, keys, n + 1)
  {
    assert ([payload] + pongs)[1..] == pongs;
  }

  lemma Regrouped(a: seq<byte>, b: seq<byte>, c: seq<byte>)
    ensures a + b + c == a + (b + c)
  {
  }

  // The input is the given frames, in some encoding, and then the rest.
  ghost predicate DecodesTo(input: seq<byte>, fs: seq<Frame>, rest: seq<byte>)
    decreases |fs|
  {
    if fs == [] then input == rest
    else
      var d := Decode(input);
      d.Decoded? && d.frame == fs[0] && DecodesTo(d.rest, fs[1..], rest)
  }

  lemma FirstDecodes(f: Frame, mask: Mask, others: seq<byte>, input: seq<byte>)
    requires Sendable(f) && input == Wire(f, mask) + others
    ensures Decode(input) == Decoded(f, others)
  {
    RoundTrip(f, mask, others);
    OpcodeBits(f.opcode);
  }

  lemma DecodesCons(f: Frame, fs: seq<Frame>, input: seq<byte>, others: seq<byte>, rest: seq<byte>)
    requires Decode(input) == Decoded(f, others) && DecodesTo(others, fs, rest)
    ensures DecodesTo(input, [f] + fs, rest)
  {
    assert ([f] + fs)[1..] == fs;
  }

  lemma OneWireDecodes(f: Frame, mask: Mask, fs: seq<Frame>, others: seq<byte>, rest: seq<byte>)
    requires Sendable(f) && DecodesTo(others, fs, rest)
    ensures DecodesTo(Wire(f, mask) + others, [f] + fs, rest)
  {
    FirstDecodes(f, mask, others, Wire(f, mask) + others);
    DecodesCons(f, fs, Wire(f, mask) + others, others, rest);
  }

  lemma {:induction false} WiresDecode(fs: seq<Frame>, masks: seq<Mask>, rest: seq<byte>)
    requires |masks| == |fs| && forall f :: f in fs ==> Sendable(f)
    ensures DecodesTo(WireAll(fs, masks, rest), fs, rest)
    decreases |fs|
  {
    if fs == [] {
    } else {
      WiresDecode(fs[1..], masks[1..], rest);
      OneWireDecodes(fs[0], masks[0], fs[1..], WireAll(fs[1..], masks[1..], rest), rest);
      assert [fs[0]] + fs[1..] == fs;
    }
  }

  lemma AfterStop(isCreated: Test, r: Reader, fs: seq<Frame>, input: seq<byte>, rest: seq<byte>, keys: nat -> Key,
                  n: nat)
    requires fs != [] && React(isCreated, r, fs[0]).Stop? && Decode(input).Decoded? && Decode(input).frame == fs[0]
    ensures Serve(isCreated, false, r, input, keys, n) == Resume(isCreated, Feed(isCreated, r, fs), rest, keys, n)
  {
  }

  lemma AfterContinue(isCreated: Test, r: Reader, next: Reader, fs: seq<Frame>, input: seq<byte>, rest: seq<byte>,
                      keys: nat -> Key, n: nat)
    requires fs != [] && React(isCreated, r, fs[0]) == Continue(next)
    requires Decode(input).Decoded? && Decode(input).frame == fs[0]
    requires Serve(isCreated, false, next, Decode(input).rest, keys, n) ==
             Resume(isCreated, Feed(isCreated, next, fs[1..]), rest, keys, n)
    ensures Serve(isCreated, false, r, input, keys, n) == Resume(isCreated, Feed(isCreated, r, fs), rest, keys, n)
  {
  }

  lemma AfterReply(isCreated: Test, r: Reader, payload: seq<byte>, fs: seq<Frame>, input: seq<byte>, rest: seq<byte>,
                   keys: nat -> Key, n: nat)
    requires fs != [] && React(isCreated, r, fs[0]) == Reply(payload)
    requires Decode(input).Decoded? && Decode(input).frame == fs[0]
    requires Serve(isCreated, false, r, Decode(input).rest, keys, n + 1) ==
             Resume(isCreated, Feed(isCreated, r, fs[1..]), rest, keys, n + 1)
    ensures Serve(isCreated, false, r, input, keys, n) == Resume(isCreated, Feed(isCreated, r, fs), rest, keys, n)
  {
    ResumeAnswer(isCreated, payload, Feed(isCreated, r, fs[1..]), rest, keys, n);
  }

  lemma {:induction false} ServeFrames(isCreated: Test, r: Reader, fs: seq<Frame>, input: seq<byte>, rest: seq<byte>,
                                       keys: nat -> Key, n: nat)
    requires DecodesTo(input, fs, rest)
    ensures Serve(isCreated, false, r, input, keys, n) == Resume(isCreated, Feed(isCreated, r, fs), rest, keys, n)
    decreases |fs|
  {
    if fs == [] {
      ResumeNone(isCreated, r, rest, keys, n);
    } else {
      var others, reaction := Decode(input).rest, React(isCreated, r, fs[0]);
      if reaction.Stop? {
        AfterStop(isCreated, r, fs, input, rest, keys, n);
      } else if reaction.Continue? {
        ServeFrames(isCreated, reaction.reader, fs[1..], others, rest, keys, n);
        AfterContinue(isCreated, r, reaction.reader, fs, input, rest, keys, n);
      } else {
        ServeFrames(isCreated, r, fs[1..], others, rest, keys, n + 1);
        AfterReply(isCreated, r, reaction.payload, fs, input, rest, keys, n);
      }
    }
  }

  // ---------- main result ----------

  /** For every legal stream, the loop reads each message as the concatenation of its fragments,
      answers each ping with one pong of equal payload, in order, and ends at the first text message
      that is the awaited event. The one exception is exact: a message fragmented behind an empty
      first fragment, reached before that, ends the wait as an unexpected continuation. */
  lemma Reassembles(isCreated: Test, ms: seq<Message>, masks: seq<Mask>, rest: seq<byte>, keys: nat -> Key)
    requires forall m :: m in ms ==> Legal(m)
    requires |masks| == |StreamFrames(ms)| && forall f :: f in StreamFrames(ms) ==> Sendable(f)
    ensures Serve(isCreated, false, IDLE, WireAll(StreamFrames(ms), masks, rest), keys, 0) ==
            Resume(isCreated, AfterMessages(isCreated, ms), rest, keys, 0)
  {
    FeedStream(isCreated, ms);
    WiresDecode(StreamFrames(ms), masks, rest);
    ServeFrames(isCreated, IDLE, StreamFrames(ms), WireAll(StreamFrames(ms), masks, rest), rest, keys, 0);
  }

  // The message is passed over: a whole message that is not the awaited event.
  ghost predicate Ignored(isCreated: Test, m: Message)
    requires Legal(m)
  {
    !StartsEmpty(m) && !(m.opcode == 0x1 && isCreated(Text(m.pieces)))
  }

  function StreamPings(ms: seq<Message>): seq<seq<byte>> {
    if ms == [] then [] else PiecePings(ms[0].pieces) + StreamPings(ms[1..])
  }

  /** The first message that is not passed over decides: the wait succeeds, with every ping up to that
      message answered, exactly when the message does not start with an empty fragment. */
  lemma {:induction false} FirstMessageDecides(isCreated: Test, ms: seq<Message>, k: nat)
    requires k < |ms| && (forall m :: m in ms ==> Legal(m))
    requires (forall i :: 0 <= i < k ==> Ignored(isCreated, ms[i])) && !Ignored(isCreated, ms[k])
    ensures var fed := AfterMessages(isCreated, ms);
            && fed.Ended?
            && (fed.outcome == SessionCreated <==> !StartsEmpty(ms[k]))
            && (fed.outcome == UnexpectedContinuation <==> StartsEmpty(ms[k]))
            && (!StartsEmpty(ms[k]) ==> fed.pongs == StreamPings(ms[..k + 1]))
  {
    if k == 0 {
      assert ms[..1][1..] == [] && StreamPings(ms[..1]) == PiecePings(ms[0].pieces);
    } else {
      assert Ignored(isCreated, ms[0]);
      FirstMessageDecides(isCreated, ms[1..], k - 1);
      assert ms[1..][..k] == ms[..k + 1][1..];
    }
  }

  /** A legal stream that is refused: the event, fragmented behind an empty first fragment. */
  lemma EmptyStartIsRefused(isCreated: Test, masks: seq<Mask>, rest: seq<byte>, keys: nat -> Key)
    requires |masks| == 2 && isCreated([0x7B])
    ensures var m := Message(0x1, [Piece([], []), Piece([], [0x7B])]);
            && Legal(m) && Text(m.pieces) == [0x7B] && |StreamFrames([m])| == 2
            && Serve(isCreated, false, IDLE, WireAll(StreamFrames([m]), masks, rest), keys, 0)
               == Served(UnexpectedContinuation, [])
  {
    var m := Message(0x1, [Piece([], []), Piece([], [0x7B])]);
    assert PieceFrames(0x0, m.pieces[1..]) == [Frame(true, 0x0, [0x7B])];
    assert PieceFrames(0x1, m.pieces) == [Frame(false, 0x1, []), Frame(true, 0x0, [0x7B])];
    assert StreamFrames([m]) == PieceFrames(0x1, m.pieces);
    assert Text(m.pieces[1..]) == [0x7B];
    Reassembles(isCreated, [m], masks, rest, keys);
  }
}

/** What the wait makes of any input at all, said of the frames on the wire. */
module Waits {
  import opened Frames
  import opened Session
  import opened Reassembly

  // Part of a message, rather than a control frame or an unknown one.
  predicate IsPart(f: Frame) {
    f.opcode == 0x0 || f.opcode == 0x1 || f.opcode == 0x2
  }

  // Before frame k a message is open that frame i began.
  ghost predicate OpenSince(fs: seq<Frame>, i: int, k: nat)
    requires k <= |fs|
  {
    && 0 <= i < k && (fs[i].opcode == 0x1 || fs[i].opcode == 0x2) && !fs[i].fin
    && forall j :: i < j < k && IsPart(fs[j]) ==> fs[j].opcode == 0x0 && !fs[j].fin
  }

  // What the frames from i to k say.
  ghost function TextOf(fs: seq<Frame>, i: nat, k: nat): seq<byte>
    requires k <= |fs|
  {
    if k <= i then [] else TextOf(fs, i, k - 1) + if IsPart(fs[k - 1]) then fs[k - 1].payload else []
  }

  // The message that frame i began is open before frame k, and not empty so far.
  ghost predicate Continues(fs: seq<Frame>, i: int, k: nat)
    requires k <= |fs|
  {
    OpenSince(fs, i, k) && TextOf(fs, i, k) != []
  }

  /** Frame k ends the wait for that reason, if the wait gets there. A connection that is broken cannot answer. */
  ghost predicate StopsAs(isCreated: Test, broken: bool, fs: seq<Frame>, k: int, reason: Outcome) {
    && 0 <= k < |fs|
    && var f := fs[k];
       match reason
       case ServerClosed => f.opcode == 0x8
       case Unsupported => f.opcode !in {0x0, 0x1, 0x2, 0x8, 0x9, 0xA}
       case UnexpectedData => (f.opcode == 0x1 || f.opcode == 0x2) && exists i :: Continues(fs, i, k)
       case UnexpectedContinuation => f.opcode == 0x0 && forall i :: !Continues(fs, i, k)
       case SessionCreated =>
         && f.fin
         && (|| (f.opcode == 0x1 && isCreated(f.payload) && forall i :: !Continues(fs, i, k))
             || (f.opcode == 0x0 && exists i :: Continues(fs, i, k) && fs[i].opcode == 0x1
                                                && isCreated(TextOf(fs, i, k) + f.payload)))
       case WriteFailed => broken && f.opcode == 0x9
       case ReadFailed => false
  }

  ghost predicate NoStop(isCreated: Test, broken: bool, fs: seq<Frame>, k: nat) {
    forall j, reason :: j < k ==> !StopsAs(isCreated, broken, fs, j, reason)
  }

  // The payloads of the pings from frame i to frame k.
  ghost function PingsIn(fs: seq<Frame>, i: nat, k: nat): seq<seq<byte>>
    requires k <= |fs|
    decreases k - i
  {
    if k <= i then [] else (if fs[i].opcode == 0x9 then [fs[i].payload] else []) + PingsIn(fs, i + 1, k)
  }

  // The variables of the loop before frame k.
  ghost predicate Remembers(fs: seq<Frame>, k: nat, r: Reader)
    requires k <= |fs|
  {
    && (r == IDLE || exists i :: OpenSince(fs, i, k) && r == Reader(TextOf(fs, i, k), fs[i].opcode))
    && (forall i :: OpenSince(fs, i, k) ==> r == Reader(TextOf(fs, i, k), fs[i].opcode))
  }

  lemma OneOpen(fs: seq<Frame>, k: nat, i: int, j: int)
    requires k <= |fs| && OpenSince(fs, i, k) && OpenSince(fs, j, k)
    ensures i == j
  {
    assert IsPart(fs[i]) && IsPart(fs[j]);
  }

  lemma OpenMore(fs: seq<Frame>, k: nat, i: int)
    requires k < |fs|
    ensures OpenSince(fs, i, k + 1) <==>
            || (i == k && (fs[k].opcode == 0x1 || fs[k].opcode == 0x2) && !fs[k].fin)
            || (OpenSince(fs, i, k) && (IsPart(fs[k]) ==> fs[k].opcode == 0x0 && !fs[k].fin))
  {
  }

  // A message that continues is what the loop remembers.
  lemma ContinuesMeans(fs: seq<Frame>, k: nat, r: Reader)
    requires k <= |fs| && Remembers(fs, k, r)
    ensures (exists i :: Continues(fs, i, k)) <==> r.fragments != []
    ensures r.fragments != [] ==>
              exists i :: Continues(fs, i, k) && r == Reader(TextOf(fs, i, k), fs[i].opcode)
    ensures r.fragments != [] ==> r.opcode == 0x1 || r.opcode == 0x2
  {
    if r.fragments != [] {
      var i :| OpenSince(fs, i, k) && r == Reader(TextOf(fs, i, k), fs[i].opcode);
      assert Continues(fs, i, k);
    }
    if i :| Continues(fs, i, k) {
      assert OpenSince(fs, i, k);
    }
  }

  // A frame stops the loop exactly when it ends the wait.
  lemma ReactStops(isCreated: Test, fs: seq<Frame>, k: nat, r: Reader, reason: Outcome)
    requires k < |fs| && Remembers(fs, k, r)
    ensures React(isCreated, r, fs[k]) == Stop(reason) <==> StopsAs(isCreated, false, fs, k, reason)
  {
    ContinuesMeans(fs, k, r);
    if r.fragments != [] {
      var i :| Continues(fs, i, k) && r == Reader(TextOf(fs, i, k), fs[i].opcode);
      forall j | Continues(fs, j, k) ensures j == i {
        OneOpen(fs, k, i, j);
      }
    }
    hide Continues, OpenSince, TextOf, Remembers;
  }

  lemma RemembersMore(isCreated: Test, fs: seq<Frame>, k: nat, r: Reader)
    requires k < |fs| && Remembers(fs, k, r)
    ensures var reaction := React(isCreated, r, fs[k]);
            && (reaction.Continue? ==> Remembers(fs, k + 1, reaction.reader) && fs[k].opcode != 0x9)
            && (reaction.Reply? ==> Remembers(fs, k + 1, r) && fs[k].opcode == 0x9 && reaction.payload == fs[k].payload)
  {
    forall i ensures OpenSince(fs, i, k + 1) <==>
                       || (i == k && (fs[k].opcode == 0x1 || fs[k].opcode == 0x2) && !fs[k].fin)
                       || (OpenSince(fs, i, k) && (IsPart(fs[k]) ==> fs[k].opcode == 0x0 && !fs[k].fin))
    {
      OpenMore(fs, k, i);
    }
    assert TextOf(fs, k, k + 1) == if IsPart(fs[k]) then fs[k].payload else [];
    assert forall i: nat :: i < k ==>
             TextOf(fs, i, k + 1) == TextOf(fs, i, k) + if IsPart(fs[k]) then fs[k].payload else [];
    hide TextOf;
  }

  // The wait from frame k on ends with frame j for that reason.
  ghost predicate EndsAt(isCreated: Test, broken: bool, fs: seq<Frame>, k: nat, j: int, reason: Outcome) {
    && StopsAs(isCreated, broken, fs, j, reason)
    && forall m, other :: k <= m < j ==> !StopsAs(isCreated, broken, fs, m, other)
  }

  ghost predicate Ends(isCreated: Test, broken: bool, fs: seq<Frame>, reason: Outcome) {
    exists j :: EndsAt(isCreated, broken, fs, 0, j, reason)
  }

  ghost predicate NothingStops(isCreated: Test, broken: bool, fs: seq<Frame>, k: nat) {
    forall m, other :: k <= m < |fs| ==> !StopsAs(isCreated, broken, fs, m, other)
  }

  // What the wait from frame k on leads to.
  ghost predicate ServedFrom(isCreated: Test, broken: bool, fs: seq<Frame>, k: nat, served: Served, keys: nat -> Key,
                             n: nat)
    requires k <= |fs|
  {
    && (forall j, reason :: k <= j && EndsAt(isCreated, broken, fs, k, j, reason) ==>
          served == Served(reason, PongWires(PingsIn(fs, k, j), keys, n)))
    && (NothingStops(isCreated, broken, fs, k) ==>
        served == Served(ReadFailed, PongWires(PingsIn(fs, k, |fs|), keys, n)))
  }

  lemma {:induction false} ServeFrom(isCreated: Test, broken: bool, fs: seq<Frame>, k: nat, r: Reader, input: seq<byte>,
                                     rest: seq<byte>, keys: nat -> Key, n: nat)
    requires k <= |fs| && Remembers(fs, k, r) && DecodesTo(input, fs[k..], rest) && !Decode(rest).Decoded?
    ensures ServedFrom(isCreated, broken, fs, k, Serve(isCreated, broken, r, input, keys, n), keys, n)
    decreases |fs| - k
  {
    if k == |fs| {
      assert input == rest;
    } else {
      var d := Decode(input);
      var reaction := React(isCreated, r, fs[k]);
      assert d.Decoded? && d.frame == fs[k] && DecodesTo(d.rest, fs[k + 1..], rest) by {
        assert fs[k..][0] == fs[k] && fs[k..][1..] == fs[k + 1..];
      }
      forall reason ensures reaction == Stop(reason) <==> StopsAs(isCreated, false, fs, k, reason) {
        ReactStops(isCreated, fs, k, r, reason);
      }
      RemembersMore(isCreated, fs, k, r);
      hide Serve, StopsAs, ServedFrom, React, Decode, DecodesTo, Remembers;
      forall reason ensures StopsAs(isCreated, broken, fs, k, reason) <==>
                              || StopsAs(isCreated, false, fs, k, reason)
                              || (broken && reason == WriteFailed && fs[k].opcode == 0x9)
      {
        OnlyPingsDiffer(isCreated, broken, fs, k, reason);
      }
      match reaction {
        case Stop(reason) =>
          ServeStops(isCreated, broken, r, reason, input, keys, n);
          StopsHere(isCreated, broken, fs, k, reason, keys, n);
        case Continue(next) =>
          ServeFrom(isCreated, broken, fs, k + 1, next, d.rest, rest, keys, n);
          ServeContinues(isCreated, broken, r, next, input, keys, n);
          GoesOn(isCreated, broken, fs, k, Serve(isCreated, broken, next, d.rest, keys, n), keys, n);
        case Reply(payload) =>
          ServeReplies(isCreated, broken, r, payload, input, keys, n);
          if broken {
            StopsHere(isCreated, broken, fs, k, WriteFailed, keys, n);
          } else {
            ServeFrom(isCreated, broken, fs, k + 1, r, d.rest, rest, keys, n + 1);
            GoesOn(isCreated, broken, fs, k, Serve(isCreated, broken, r, d.rest, keys, n + 1), keys, n);
          }
      }
    }
  }

  lemma ServeStops(isCreated: Test, broken: bool, r: Reader, reason: Outcome, input: seq<byte>, keys: nat -> Key,
                   n: nat)
    requires Decode(input).Decoded? && React(isCreated, r, Decode(input).frame) == Stop(reason)
    ensures Serve(isCreated, broken, r, input, keys, n) == Served(reason, [])
  {
  }

  lemma ServeContinues(isCreated: Test, broken: bool, r: Reader, next: Reader, input: seq<byte>, keys: nat -> Key,
                       n: nat)
    requires Decode(input).Decoded? && React(isCreated, r, Decode(input).frame) == Continue(next)
    ensures Serve(isCreated, broken, r, input, keys, n) == Serve(isCreated, broken, next, Decode(input).rest, keys, n)
  {
  }

  lemma ServeReplies(isCreated: Test, broken: bool, r: Reader, payload: seq<byte>, input: seq<byte>, keys: nat -> Key,
                     n: nat)
    requires Decode(input).Decoded? && React(isCreated, r, Decode(input).frame) == Reply(payload)
    ensures var others := Serve(isCreated, broken, r, Decode(input).rest, keys, n + 1);
            Serve(isCreated, broken, r, input, keys, n) ==
            if broken then Served(WriteFailed, [])
            else Served(others.outcome, Wire(Frame(true, 0xA, payload), WithKey(keys(n))) + others.written)
  {
  }

  lemma StopsHere(isCreated: Test, broken: bool, fs: seq<Frame>, k: nat, reason: Outcome, keys: nat -> Key, n: nat)
    requires k < |fs|
    requires forall other :: StopsAs(isCreated, broken, fs, k, other) <==> other == reason
    ensures ServedFrom(isCreated, broken, fs, k, Served(reason, []), keys, n)
  {
    hide StopsAs;
    assert StopsAs(isCreated, broken, fs, k, reason);
    assert PingsIn(fs, k, k) == [];
  }

  // A frame that does not end the wait.
  lemma GoesOn(isCreated: Test, broken: bool, fs: seq<Frame>, k: nat, others: Served, keys: nat -> Key, n: nat)
    requires k < |fs| && forall reason :: !StopsAs(isCreated, broken, fs, k, reason)
    requires ServedFrom(isCreated, broken, fs, k + 1, others, keys, if fs[k].opcode == 0x9 then n + 1 else n)
    ensures ServedFrom(isCreated, broken, fs, k,
                       if fs[k].opcode != 0x9 then others
                       else Served(others.outcome,
                                   Wire(Frame(true, 0xA, fs[k].payload), WithKey(keys(n))) + others.written), keys, n)
  {
    EndsLater(isCreated, broken, fs, k);
    hide EndsAt, StopsAs, NothingStops, PongWires, PingsIn, Wire;
    var served := if fs[k].opcode != 0x9 then others
                  else Served(others.outcome,
                              Wire(Frame(true, 0xA, fs[k].payload), WithKey(keys(n))) + others.written);
    forall j, reason | k <= j && EndsAt(isCreated, broken, fs, k, j, reason)
      ensures served == Served(reason, PongWires(PingsIn(fs, k, j), keys, n))
    {
      PongsGoOn(fs, k, j, keys, n);
    }
    PongsGoOn(fs, k, |fs|, keys, n);
  }

  // The pongs from frame k on, and those from the next.
  ghost predicate PongsFollow(fs: seq<Frame>, k: nat, j: nat, keys: nat -> Key, n: nat)
    requires k < j <= |fs|
  {
    PongWires(PingsIn(fs, k, j), keys, n) ==
    if fs[k].opcode == 0x9 then
      Wire(Frame(true, 0xA, fs[k].payload), WithKey(keys(n))) + PongWires(PingsIn(fs, k + 1, j), keys, n + 1)
    else PongWires(PingsIn(fs, k + 1, j), keys, n)
  }

  lemma PongsGoOn(fs: seq<Frame>, k: nat, j: nat, keys: nat -> Key, n: nat)
    requires k < j <= |fs|
    ensures PongsFollow(fs, k, j, keys, n)
  {
    if fs[k].opcode == 0x9 {
      assert PingsIn(fs, k, j) == [fs[k].payload] + PingsIn(fs, k + 1, j);
      MorePongs(fs[k].payload, PingsIn(fs, k + 1, j), keys, n);
    } else {
      assert PingsIn(fs, k, j) == PingsIn(fs, k + 1, j);
    }
  }

  lemma EndsLater(isCreated: Test, broken: bool, fs: seq<Frame>, k: nat)
    requires k < |fs| && forall reason :: !StopsAs(isCreated, broken, fs, k, reason)
    ensures forall j, reason :: k <= j && EndsAt(isCreated, broken, fs, k, j, reason) ==>
              k < j < |fs| && EndsAt(isCreated, broken, fs, k + 1, j, reason)
    ensures NothingStops(isCreated, broken, fs, k) ==> NothingStops(isCreated, broken, fs, k + 1)
  {
    forall j, reason | StopsAs(isCreated, broken, fs, j, reason) ensures j != k && j < |fs| {
    }
    hide StopsAs;
  }

  // A broken connection only stops at pings where another one would not.
  lemma OnlyPingsDiffer(isCreated: Test, broken: bool, fs: seq<Frame>, k: nat, reason: Outcome)
    requires k < |fs|
    ensures StopsAs(isCreated, broken, fs, k, reason) <==>
            || StopsAs(isCreated, false, fs, k, reason)
            || (broken && reason == WriteFailed && fs[k].opcode == 0x9)
  {
  }

  // ---------- main results ----------

  /** The frames at the front of the input, as far as it decodes. */
  lemma {:induction false} FramesOf(input: seq<byte>) returns (fs: seq<Frame>, rest: seq<byte>)
    ensures DecodesTo(input, fs, rest) && !Decode(rest).Decoded?
    decreases |input|
  {
    var d := Decode(input);
    if !d.Decoded? {
      fs, rest := [], input;
    } else {
      fs, rest := FramesOf(d.rest);
      DecodesCons(d.frame, fs, input, d.rest, rest);
      fs := [d.frame] + fs;
    }
  }

  /** Whatever arrives, the wait ends for the reason of the first frame that has one, or as a failed read when no frame
      before the end of what decodes has one; and by then exactly the pings before it are answered, in order. */
  lemma WaitMeans(isCreated: Test, broken: bool, input: seq<byte>, fs: seq<Frame>, rest: seq<byte>, keys: nat -> Key)
    requires DecodesTo(input, fs, rest) && !Decode(rest).Decoded?
    ensures var served := Serve(isCreated, broken, IDLE, input, keys, 0);
            && (forall j: int, reason :: 0 <= j && EndsAt(isCreated, broken, fs, 0, j, reason) ==>
                  served == Served(reason, PongWires(PingsIn(fs, 0, j), keys, 0)))
            && (served.outcome == ReadFailed <==> NothingStops(isCreated, broken, fs, 0))
            && (served.outcome == ReadFailed ==> served.written == PongWires(PingsIn(fs, 0, |fs|), keys, 0))
            && (forall reason :: reason != ReadFailed ==>
                  (served.outcome == reason <==> Ends(isCreated, broken, fs, reason)))
  {
    assert fs[0..] == fs;
    ServeFrom(isCreated, broken, fs, 0, IDLE, input, rest, keys, 0);
    hide Serve, StopsAs, PongWires, PingsIn;
    assert forall j :: !EndsAt(isCreated, broken, fs, 0, j, ReadFailed) by {
      NotReadFailed(isCreated, broken, fs);
    }
    if !NothingStops(isCreated, broken, fs, 0) {
      var j, reason := FirstStop(isCreated, broken, fs);
      assert reason != ReadFailed;
    }
  }

  lemma NotReadFailed(isCreated: Test, broken: bool, fs: seq<Frame>)
    ensures forall j :: !StopsAs(isCreated, broken, fs, j, ReadFailed)
    ensures forall j, reason :: StopsAs(isCreated, broken, fs, j, reason) ==> 0 <= j < |fs|
  {
  }

  lemma FirstStop(isCreated: Test, broken: bool, fs: seq<Frame>) returns (j: nat, reason: Outcome)
    requires !NothingStops(isCreated, broken, fs, 0)
    ensures EndsAt(isCreated, broken, fs, 0, j, reason)
  {
    j := 0;
    while forall other :: !StopsAs(isCreated, broken, fs, j, other)
      invariant j <= |fs| && forall m, other :: 0 <= m < j ==> !StopsAs(isCreated, broken, fs, m, other)
      decreases |fs| - j
    {
      j := j + 1;
    }
    reason :| StopsAs(isCreated, broken, fs, j, reason);
  }

  function PongFrames(pongs: seq<seq<byte>>): seq<Frame> {
    if pongs == [] then [] else [Frame(true, 0xA, pongs[0])] + PongFrames(pongs[1..])
  }

  /** What is written reads back as one pong frame for each payload. */
  lemma {:induction false} PongsReadBack(pongs: seq<seq<byte>>, keys: nat -> Key, n: nat)
    requires forall p :: p in pongs ==> |p| <= MAX_PAYLOAD
    ensures DecodesTo(PongWires(pongs, keys, n), PongFrames(pongs), [])
    decreases |pongs|
  {
    if pongs == [] {
    } else {
      PongsReadBack(pongs[1..], keys, n + 1);
      OneWireDecodes(Frame(true, 0xA, pongs[0]), WithKey(keys(n)), PongFrames(pongs[1..]),
                     PongWires(pongs[1..], keys, n + 1), []);
    }
  }
}
