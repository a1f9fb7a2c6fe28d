/** Packets on the wire: a 4-byte header (command and body length, each 16 bits, low byte first)
  * and the body. A byte stream is cut into packets from the front.
  */
module Frames {
  import opened Bytes
  import opened Sequences

  const PDUHEADERSIZE := 4
  const PDUBODYSIZE := 4092
  const CMD_CHAT_BROADCAST := 1620

  datatype Frame = Frame(command: nat, body: seq<Byte>)

  /** What a sender builds in a T_PACKET. */
  predicate Fits(f: Frame) {
    f.command < 0x1_0000 && |f.body| <= PDUBODYSIZE
  }

  function Number16(low: Byte, high: Byte): (n: nat)
    ensures n < 0x1_0000
  {
    low as nat + 0x100 * high as nat
  }

  function Bytes16(n: nat): (b: seq<Byte>)
    requires n < 0x1_0000
    ensures |b| == 2 && Number16(b[0], b[1]) == n
  {
    [(n % 0x100) as Byte, (n / 0x100) as Byte]
  }

  function Encode(f: Frame): seq<Byte>
    requires Fits(f)
  {
    Bytes16(f.command) + Bytes16(|f.body|) + f.body
  }

  function EncodeAll(fs: seq<Frame>): seq<Byte>
    requires forall f :: f in fs ==> Fits(f)
  {
    if fs == [] then [] else Encode(fs[0]) + EncodeAll(fs[1..])
  }

  /** The body length that a header announces. */
  function Announced(header: seq<Byte>): (n: nat)
    requires |header| >= 4
    ensures n < 0x1_0000
  {
    Number16(header[2], header[3])
  }

  /** The stream begins with a whole packet. */
  predicate Ready(s: seq<Byte>) {
    |s| >= 4 && |s| >= 4 + Announced(s)
  }

  function FirstLength(s: seq<Byte>): (n: nat)
    requires Ready(s)
    ensures 4 <= n <= |s|
  {
    4 + Announced(s)
  }

  function Decode(bytes: seq<Byte>): Frame
    requires |bytes| >= 4
  {
    Frame(Number16(bytes[0], bytes[1]), bytes[4..])
  }

  datatype Cut = Cut(frames: seq<Frame>, rest: seq<Byte>)

  /** The whole packets at the front of a stream, and what is left. */
  function CutAll(s: seq<Byte>): Cut
    decreases |s|
  {
    if !Ready(s) then Cut([], s)
    else
      var n := FirstLength(s);
      var more := CutAll(s[n..]);
      Cut([Decode(s[..n])] + more.frames, more.rest)
  }

  /** No packet in the stream is longer than the receiver's T_PACKET. */
  predicate Sound(s: seq<Byte>)
    decreases |s|
  {
    Ready(s) ==> Announced(s) <= PDUBODYSIZE && Sound(s[FirstLength(s)..])
  }

  lemma EncodeReady(f: Frame, more: seq<Byte>)
    requires Fits(f)
    ensures Ready(Encode(f) + more) && FirstLength(Encode(f) + more) == |Encode(f)|
    ensures Announced(Encode(f) + more) <= PDUBODYSIZE
    ensures Decode(Encode(f)) == f
    ensures (Encode(f) + more)[..|Encode(f)|] == Encode(f) && (Encode(f) + more)[|Encode(f)|..] == more
  {
  }

  lemma CutFirst(f: Frame, more: seq<Byte>)
    requires Fits(f)
    ensures CutAll(Encode(f) + more) == Cut([f] + CutAll(more).frames, CutAll(more).rest)
    ensures Sound(Encode(f) + more) == Sound(more)
  {
  }

  /** Cutting finds the packets that were encoded, and keeps the incomplete one that follows. */
  lemma {:induction false} CutEncoded(fs: seq<Frame>, rest: seq<Byte>)
    requires (forall f :: f in fs ==> Fits(f)) && !Ready(rest)
    ensures CutAll(EncodeAll(fs) + rest) == Cut(fs, rest) && Sound(EncodeAll(fs) + rest)
  {
    if fs == [] {
      assert EncodeAll(fs) + rest == rest;
    } else {
      hide Ready, CutAll, Sound, Encode;
      var more := EncodeAll(fs[1..]) + rest;
      CutEncoded(fs[1..], rest);
      CutFirst(fs[0], more);
      Regroup(Encode(fs[0]), EncodeAll(fs[1..]), rest);
    }
  }

  lemma ReadyExtends(a: seq<Byte>, b: seq<Byte>)
    requires Ready(a)
    ensures Ready(a + b) && FirstLength(a + b) == FirstLength(a)
    ensures (a + b)[..FirstLength(a)] == a[..FirstLength(a)] && (a + b)[FirstLength(a)..] == a[FirstLength(a)..] + b
  {
  }

  /** Cutting as the bytes arrive finds what cutting all of them at once finds. */
  lemma {:induction false} CutContinues(a: seq<Byte>, b: seq<Byte>)
    ensures var first := CutAll(a);
      CutAll(a + b) == Cut(first.frames + CutAll(first.rest + b).frames, CutAll(first.rest + b).rest)
    decreases |a|
  {
    hide Ready, FirstLength, Decode;
    var first := CutAll(a);
    if Ready(a) {
      var n := FirstLength(a);
      CutContinues(a[n..], b);
      ReadyExtends(a, b);
      var more := CutAll(a[n..]);
      Regroup([Decode(a[..n])], more.frames, CutAll(more.rest + b).frames);
    } else {
      assert [] + CutAll(a + b).frames == CutAll(a + b).frames;
    }
  }

  lemma {:induction false} SoundPrefix(a: seq<Byte>, b: seq<Byte>)
    requires Sound(a + b)
    ensures Sound(a) && Sound(CutAll(a).rest + b)
    decreases |a|
  {
    if Ready(a) {
      ReadyExtends(a, b);
      SoundPrefix(a[FirstLength(a)..], b);
    }
  }

  lemma {:induction false} RestIsIncomplete(s: seq<Byte>)
    ensures !Ready(CutAll(s).rest) && |CutAll(s).rest| <= |s|
    decreases |s|
  {
    if Ready(s) { RestIsIncomplete(s[FirstLength(s)..]); }
  }

  // ---------------------------------------------------------------- nothing is lost

  lemma NumberRoundTrip(low: Byte, high: Byte)
    ensures Bytes16(Number16(low, high)) == [low, high]
  {
  }

  /** The bytes of one packet are those of the packet decoded from them. */
  lemma DecodeEncode(bytes: seq<Byte>)
    requires |bytes| >= 4 && |bytes| == 4 + Announced(bytes) && Announced(bytes) <= PDUBODYSIZE
    ensures Fits(Decode(bytes)) && Encode(Decode(bytes)) == bytes
  {
    NumberRoundTrip(bytes[0], bytes[1]);
    NumberRoundTrip(bytes[2], bytes[3]);
    assert bytes == [bytes[0], bytes[1]] + [bytes[2], bytes[3]] + bytes[4..];
  }

  lemma EncodeFirst(f: Frame, more: seq<Frame>)
    requires Fits(f) && forall g :: g in more ==> Fits(g)
    ensures EncodeAll([f] + more) == Encode(f) + EncodeAll(more)
  {
    assert ([f] + more)[1..] == more;
  }

  /** What is cut, encoded again, and the rest are together the stream: the rest is exactly the
    * bytes behind the last whole packet. */
  lemma {:induction false} Reencoded(s: seq<Byte>)
    requires Sound(s)
    ensures (forall f :: f in CutAll(s).frames ==> Fits(f)) && EncodeAll(CutAll(s).frames) + CutAll(s).rest == s
    decreases |s|
  {
    if Ready(s) {
      var n := FirstLength(s);
      var more := CutAll(s[n..]);
      Reencoded(s[n..]);
      FirstAnnounced(s);
      DecodeEncode(s[..n]);
      hide Ready, FirstLength, Decode, Encode, Fits;
      EncodeFirst(Decode(s[..n]), more.frames);
      Regroup(s[..n], EncodeAll(more.frames), more.rest);
      assert s == s[..n] + s[n..];
    } else {
      assert [] + s == s;
    }
  }

  lemma FirstAnnounced(s: seq<Byte>)
    requires Ready(s)
    ensures Announced(s[..FirstLength(s)]) == Announced(s)
  {
  }

  /** Of the bytes of valid packets, any beginning is cut into a beginning of those packets and the
    * bytes that follow it, which are not a whole packet. */
  lemma PrefixOfFrames(fs: seq<Frame>, a: seq<Byte>)
    requires (forall f :: f in fs ==> Fits(f)) && a <= EncodeAll(fs)
    ensures CutAll(a).frames <= fs && Sound(a) && !Ready(CutAll(a).rest)
    ensures (forall f :: f in CutAll(a).frames ==> Fits(f)) && a == EncodeAll(CutAll(a).frames) + CutAll(a).rest
  {
    var b := EncodeAll(fs)[|a|..];
    assert a + b == EncodeAll(fs) + [];
    CutEncoded(fs, []);
    CutContinues(a, b);
    SoundPrefix(a, b);
    RestIsIncomplete(a);
    Reencoded(a);
  }

  // ---------------------------------------------------------------- relay packets

  function Bytes32(n: nat): (b: seq<Byte>)
    requires n < 0x1_0000_0000
    ensures |b| == 4 && Number16(b[0], b[1]) + 0x1_0000 * Number16(b[2], b[3]) == n
  {
    Bytes16(n % 0x1_0000) + Bytes16(n / 0x1_0000)
  }

  /** A 64-bit id as eight bytes, low byte first. */
  function Bytes64(n: nat): (b: seq<Byte>)
    requires n < 0x1_0000_0000_0000_0000
    ensures |b| == 8 && Number64(b) == n
  {
    Bytes32(n % 0x1_0000_0000) + Bytes32(n / 0x1_0000_0000)
  }

  function Number64(b: seq<Byte>): nat
    requires |b| == 8
  {
    Number16(b[0], b[1]) + 0x1_0000 * Number16(b[2], b[3])
    + 0x1_0000_0000 * (Number16(b[4], b[5]) + 0x1_0000 * Number16(b[6], b[7]))
  }

  /** What a server sends to its managers for a message. */
  function RelayFrame(id: nat, message: seq<Byte>): Frame
    requires id < 0x1_0000_0000_0000_0000
  {
    Frame(CMD_CHAT_BROADCAST, Bytes64(id) + message)
  }

  /** The relay packet on the wire: command 1620, then the body length, then the id, each with its low
    * byte first, then the message. */
  lemma RelayLayout(id: nat, message: seq<Byte>)
    requires id < 0x1_0000_0000_0000_0000 && |message| <= 1024
    ensures var b := Encode(RelayFrame(id, message));
      && |b| == 12 + |message| && b[12..] == message
      && b[0] as nat + 256 * b[1] as nat == 1620 && b[2] as nat + 256 * b[3] as nat == 8 + |message|
      && b[4] as nat + 256 * (b[5] as nat + 256 * (b[6] as nat + 256 * (b[7] as nat + 256 * (
           b[8] as nat + 256 * (b[9] as nat + 256 * (b[10] as nat + 256 * b[11] as nat)))))) == id
  {
    var b := Encode(RelayFrame(id, message));
    assert b[4..12] == Bytes64(id) && Number64(b[4..12]) == id;
  }

  /** A message with its last byte set to zero, as SetMessage leaves it. */
  function Terminated(message: seq<Byte>): seq<Byte>
    requires message != []
  {
    message[|message| - 1 := 0]
  }

  /** The message that a server takes out of a packet from a manager. */
  function RelayedMessage(f: Frame): seq<Byte>
    requires |f.body| >= 9
  {
    Terminated(f.body[8..])
  }

  /** The id that a manager reads from a packet. */
  function RelayedId(f: Frame): nat
    requires |f.body| >= 8
  {
    Number64(f.body[..8])
  }

  /** Framing, cutting and decoding give back the id and, but for its last byte, the message. */
  lemma RelayRoundTrip(id: nat, message: seq<Byte>, more: seq<Byte>)
    requires id < 0x1_0000_0000_0000_0000 && 1 <= |message| <= 1024
    ensures var stream := Encode(RelayFrame(id, message)) + more;
      && Ready(stream) && FirstLength(stream) == 12 + |message| && stream[FirstLength(stream)..] == more
      && var f := Decode(stream[..FirstLength(stream)]);
         && f.command == CMD_CHAT_BROADCAST && |f.body| == 8 + |message|
         && RelayedId(f) == id && RelayedMessage(f) == Terminated(message)
  {
    EncodeReady(RelayFrame(id, message), more);
    assert (Bytes64(id) + message)[..8] == Bytes64(id) && (Bytes64(id) + message)[8..] == message;
  }

  /** The message that is decoded is the one that was sent exactly when that ends in a zero byte. */
  lemma RelayIdentityExact(id: nat, message: seq<Byte>, more: seq<Byte>)
    requires id < 0x1_0000_0000_0000_0000 && 1 <= |message| <= 1024
    ensures var stream := Encode(RelayFrame(id, message)) + more;
      Ready(stream) && |Decode(stream[..FirstLength(stream)]).body| >= 9
      && (RelayedMessage(Decode(stream[..FirstLength(stream)])) == message <==> message[|message| - 1] == 0)
  {
    hide Ready, FirstLength, Decode, Encode, RelayFrame, RelayedMessage;
    RelayRoundTrip(id, message, more);
    TerminatedExact(message);
  }

  lemma TerminatedIs(message: seq<Byte>)
    requires message != []
    ensures Terminated(message) == message[..|message| - 1] + [0]
  {
  }

  lemma TerminatedExact(message: seq<Byte>)
    requires message != []
    ensures Terminated(message) == message <==> message[|message| - 1] == 0
  {
    assert Terminated(message)[|message| - 1] == 0;
    assert message[|message| - 1] == 0 ==> message[|message| - 1 := 0] == message;
  }
}
