// The binary messages exchanged with a robot: a header, the encrypted payload and a checksum.
module WireProtocol {
  import opened Common
  import opened BlockCodec

  // The primitives: encryption and decryption of a block with a key, checksum, and hash of a text.
  datatype Suite = Suite(
    encrypt: Block -> Block -> Block, decrypt: Block -> Block -> Block, crc: seq<Byte> -> Word, md5: string -> Block)

  ghost predicate Lawful(suite: Suite) {
    forall k: Block, b: Block :: suite.decrypt(k)(suite.encrypt(k)(b)) == b
  }

  const SALT := "TXdfu$jyZ#TZHsg4"
  const PATTERN: seq<nat> := [5, 6, 3, 7, 1, 2, 0, 4]

  function HexDigit(d: nat): char
    requires d < 16
  {
    if d < 10 then '0' + d as char else 'a' + (d - 10) as char
  }

  // The n lowest hexadecimal digits, the highest first.
  function Hex(w: nat, n: nat): (s: string)
    ensures |s| == n
  {
    if n == 0 then "" else Hex(w / 16, n - 1) + [HexDigit(w % 16)]
  }

  function Power16(n: nat): nat {
    if n == 0 then 1 else 16 * Power16(n - 1)
  }

  lemma {:induction false} HexInjective(v: nat, w: nat, n: nat)
    requires v < Power16(n) && w < Power16(n) && Hex(v, n) == Hex(w, n)
    ensures v == w
  {
    if n > 0 {
      var s := Hex(v, n);
      assert s[..n - 1] == Hex(v / 16, n - 1) == Hex(w / 16, n - 1);
      assert s[n - 1] == HexDigit(v % 16) == HexDigit(w % 16);
      HexInjective(v / 16, w / 16, n - 1);
    }
  }

  function Shuffled(hex: string): string
    requires |hex| == 8
  {
    seq(8, i requires 0 <= i < 8 => hex[PATTERN[i]])
  }

  method ShuffleTimestamp(timestamp: Word) returns (s: string)
    ensures s == Shuffled(Hex(timestamp, 8))
  {
    var hex := Hex(timestamp, 8);
    var result := new char[8];
    for i := 0 to 8
      invariant forall j :: 0 <= j < i ==> result[j] == hex[PATTERN[j]]
    {
      result[i] := hex[PATTERN[i]];
    }
    return result[..];
  }

  function KeyText(timestamp: Word, deviceKey: string): string {
    Shuffled(Hex(timestamp, 8)) + deviceKey + SALT
  }

  // Different times or device keys are never hashed as the same text.
  lemma KeyTextInjective(t: Word, deviceKey: string, u: Word, otherKey: string)
    requires KeyText(t, deviceKey) == KeyText(u, otherKey)
    ensures t == u && deviceKey == otherKey
  {
    var x, y := Hex(t, 8), Hex(u, 8);
    var s := KeyText(t, deviceKey);
    assert s[..8] == Shuffled(x);
    assert s[..8] == Shuffled(y);
    assert |deviceKey| == |otherKey|;
    assert s[8..8 + |deviceKey|] == deviceKey;
    assert s[8..8 + |deviceKey|] == otherKey;
    assert Shuffled(x) == Shuffled(y);
    assert forall i :: 0 <= i < 8 ==> Shuffled(x)[i] == x[PATTERN[i]] && Shuffled(y)[i] == y[PATTERN[i]];
    assert x[PATTERN[6]] == y[PATTERN[6]] && x[PATTERN[4]] == y[PATTERN[4]] && x[PATTERN[5]] == y[PATTERN[5]];
    assert x[PATTERN[2]] == y[PATTERN[2]] && x[PATTERN[7]] == y[PATTERN[7]] && x[PATTERN[0]] == y[PATTERN[0]];
    assert x[PATTERN[1]] == y[PATTERN[1]] && x[PATTERN[3]] == y[PATTERN[3]];
    assert x == y;
    assert Power16(8) == 0x1_0000_0000;
    HexInjective(t, u, 8);
  }

  function Encrypted(suite: Suite, key: Block, data: seq<Byte>): seq<Byte> {
    Blocks(suite.encrypt(key), Pad(data))
  }

  function Decrypted(suite: Suite, key: Block, data: seq<Byte>): Result<seq<Byte>, DecryptError> {
    if |data| % BLOCK != 0 then Err(NotWholeBlocks) else Unpadded(Blocks(suite.decrypt(key), data))
  }

  method EncryptECB(suite: Suite, data: seq<Byte>, key: Block) returns (encrypted: seq<Byte>)
    ensures encrypted == Encrypted(suite, key, data)
  {
    encrypted := OnBlocks(suite.encrypt(key), Pad(data));
  }

  method DecryptECB(suite: Suite, data: seq<Byte>, key: Block) returns (r: Result<seq<Byte>, DecryptError>)
    ensures r == Decrypted(suite, key, data)
  {
    if |data| % BLOCK != 0 {
      return Err(NotWholeBlocks);
    }
    var decrypted := OnBlocks(suite.decrypt(key), data);
    r := Unpad(decrypted);
  }

  lemma DecryptInverse(suite: Suite, key: Block, data: seq<Byte>)
    requires Lawful(suite)
    ensures Decrypted(suite, key, Encrypted(suite, key, data)) == Ok(data)
  {
    BlocksInverse(suite.encrypt(key), suite.decrypt(key), Pad(data));
    PadInverse(data, Pad(data));
  }

  // What decrypts to something is an encryption of it, where the cipher is a permutation.
  lemma EncryptInverse(suite: Suite, key: Block, data: seq<Byte>, plain: seq<Byte>)
    requires forall b: Block :: suite.encrypt(key)(suite.decrypt(key)(b)) == b
    requires Decrypted(suite, key, data) == Ok(plain)
    ensures Encrypted(suite, key, plain) == data
  {
    PadInverse(plain, Blocks(suite.decrypt(key), data));
    BlocksInverse(suite.decrypt(key), suite.encrypt(key), data);
  }

  // Big-endian numbers.
  function Bytes2(h: Half): seq<Byte> {
    [h / 0x100, h % 0x100]
  }

  function Bytes4(w: Word): seq<Byte> {
    Bytes2(w / 0x1_0000) + Bytes2(w % 0x1_0000)
  }

  function Number2(s: seq<Byte>): Half
    requires |s| == 2
  {
    var high: int := s[0];
    high * 0x100 + s[1]
  }

  function Number4(s: seq<Byte>): Word
    requires |s| == 4
  {
    var high: int := Number2(s[..2]);
    high * 0x1_0000 + Number2(s[2..])
  }

  lemma NumberInverse2(h: Half, s: seq<Byte>)
    requires |s| == 2
    ensures Number2(s) == h <==> s == Bytes2(h)
  {
  }

  lemma NumberInverse4(w: Word, s: seq<Byte>)
    requires |s| == 4
    ensures Number4(s) == w <==> s == Bytes4(w)
  {
    NumberInverse2(w / 0x1_0000, s[..2]);
    NumberInverse2(w % 0x1_0000, s[2..]);
    assert s == s[..2] + s[2..];
    if s == Bytes4(w) {
      assert s[..2] == Bytes2(w / 0x1_0000) && s[2..] == Bytes2(w % 0x1_0000);
    }
  }

  const HEADER_SIZE := 19
  const FOOTER_SIZE := 4
  const VERSION: seq<Byte> := [0x31, 0x2E, 0x30]

  datatype Header = Header(version: seq<Byte>, sequence: Word, random: Word, timestamp: Word, protocol: Half,
                           length: Half)

  datatype Received = Received(header: Header, payload: Option<seq<Byte>>)

  datatype DecodeError = TooShort | Truncated | ChecksumMismatch | BadPayload(e: DecryptError)

  function HeaderBytes(h: Header): seq<Byte> {
    h.version + Bytes4(h.sequence) + Bytes4(h.random) + Bytes4(h.timestamp) + Bytes2(h.protocol) + Bytes2(h.length)
  }

  function HeaderOf(data: seq<Byte>): Header
    requires |data| >= HEADER_SIZE
  {
    Header(data[..3], Number4(data[3..7]), Number4(data[7..11]), Number4(data[11..15]), Number2(data[15..17]),
           Number2(data[17..19]))
  }

  lemma HeaderInverse(h: Header, data: seq<Byte>)
    requires |data| >= HEADER_SIZE
    ensures HeaderOf(data) == h <==> |h.version| == 3 && data[..HEADER_SIZE] == HeaderBytes(h)
  {
    NumberInverse4(h.sequence, data[3..7]);
    NumberInverse4(h.random, data[7..11]);
    NumberInverse4(h.timestamp, data[11..15]);
    NumberInverse2(h.protocol, data[15..17]);
    NumberInverse2(h.length, data[17..19]);
    hide Bytes2, Bytes4, Number2, Number4;
    assert |Bytes4(h.sequence)| == |Bytes4(h.random)| == |Bytes4(h.timestamp)| == 4 by { Sizes(h); }
    assert |Bytes2(h.protocol)| == |Bytes2(h.length)| == 2 by { Sizes(h); }
    var head := data[..HEADER_SIZE];
    assert head == data[..3] + data[3..7] + data[7..11] + data[11..15] + data[15..17] + data[17..19];
    if |h.version| == 3 && head == HeaderBytes(h) {
      assert head[..3] == h.version && head[3..7] == Bytes4(h.sequence) && head[7..11] == Bytes4(h.random);
      assert head[11..15] == Bytes4(h.timestamp) && head[15..17] == Bytes2(h.protocol);
      assert head[17..19] == Bytes2(h.length);
    }
  }

  lemma Sizes(h: Header)
    ensures |Bytes4(h.sequence)| == |Bytes4(h.random)| == |Bytes4(h.timestamp)| == 4
    ensures |Bytes2(h.protocol)| == |Bytes2(h.length)| == 2
    ensures |HeaderBytes(h)| == |h.version| + 16
  {
  }

  function Framed(suite: Suite, h: Header, body: seq<Byte>): seq<Byte> {
    HeaderBytes(h) + body + Bytes4(suite.crc(HeaderBytes(h) + body))
  }

  function KeyOf(suite: Suite, timestamp: Word, deviceKey: string): Block {
    suite.md5(KeyText(timestamp, deviceKey))
  }

  function Sealed(suite: Suite, h: Header, deviceKey: string, payload: seq<Byte>): seq<Byte> {
    Encrypted(suite, KeyOf(suite, h.timestamp, deviceKey), payload)
  }

  function Opened(suite: Suite, data: seq<Byte>, deviceKey: string): Result<Received, DecodeError> {
    if |data| < HEADER_SIZE + FOOTER_SIZE then Err(TooShort)
    else
      var h := HeaderOf(data);
      var end := HEADER_SIZE + h.length;
      if |data| < end + FOOTER_SIZE then Err(Truncated)
      else if suite.crc(data[..end]) != Number4(data[end..end + FOOTER_SIZE]) then Err(ChecksumMismatch)
      else if h.length == 0 then Ok(Received(h, None))
      else
        match Decrypted(suite, KeyOf(suite, h.timestamp, deviceKey), data[HEADER_SIZE..end])
        case Err(e) => Err(BadPayload(e))
        case Ok(payload) => Ok(Received(h, Some(payload)))
  }

  // Whether the data starts with the frame of a header and a body.
  lemma StartsWithFrame(suite: Suite, h: Header, body: seq<Byte>, data: seq<Byte>)
    requires |h.version| == 3 && |body| == h.length
    ensures Framed(suite, h, body) <= data <==>
              && |data| >= HEADER_SIZE + h.length + FOOTER_SIZE && HeaderOf(data) == h
              && data[HEADER_SIZE..HEADER_SIZE + h.length] == body
              && (var end := HEADER_SIZE + h.length;
                  suite.crc(data[..end]) == Number4(data[end..end + FOOTER_SIZE]))
  {
    Sizes(h);
    var end := HEADER_SIZE + h.length;
    var checksum := suite.crc(HeaderBytes(h) + body);
    if |data| >= end + FOOTER_SIZE {
      HeaderInverse(h, data);
      NumberInverse4(checksum, data[end..end + FOOTER_SIZE]);
      hide HeaderBytes, HeaderOf, Bytes4, Number4;
      assert |Bytes4(checksum)| == 4 by { Size4(checksum); }
      var front, framed := data[..end + FOOTER_SIZE], Framed(suite, h, body);
      assert |framed| == end + FOOTER_SIZE;
      assert front == data[..HEADER_SIZE] + data[HEADER_SIZE..end] + data[end..end + FOOTER_SIZE];
      assert data[..end] == data[..HEADER_SIZE] + data[HEADER_SIZE..end];
      assert framed <= data <==> framed == front;
      if framed == front {
        assert framed[..HEADER_SIZE] == HeaderBytes(h) && framed[HEADER_SIZE..end] == body;
        assert framed[end..] == Bytes4(checksum);
        assert front[..HEADER_SIZE] == data[..HEADER_SIZE] && front[HEADER_SIZE..end] == data[HEADER_SIZE..end];
        assert front[end..] == data[end..end + FOOTER_SIZE];
      }
    } else {
      Size4(checksum);
    }
  }

  lemma Size4(w: Word)
    ensures |Bytes4(w)| == 4
  {
  }

  // What is accepted is exactly what starts with the frame of an encrypted payload, for a cipher whose
  // encryption and decryption undo each other.
  lemma OpensExactlySealed(suite: Suite, data: seq<Byte>, deviceKey: string, h: Header, payload: seq<Byte>)
    requires Lawful(suite) && forall k: Block, b: Block :: suite.encrypt(k)(suite.decrypt(k)(b)) == b
    ensures Opened(suite, data, deviceKey) == Ok(Received(h, Some(payload))) <==>
              && |h.version| == 3 && h.length == |Sealed(suite, h, deviceKey, payload)|
              && Framed(suite, h, Sealed(suite, h, deviceKey, payload)) <= data
  {
    hide HeaderOf, Number4, Number2, Framed, Encrypted, Decrypted;
    var key, body := KeyOf(suite, h.timestamp, deviceKey), Sealed(suite, h, deviceKey, payload);
    SealedSize(suite, h, deviceKey, payload);
    DecryptInverse(suite, key, payload);
    if |h.version| == 3 && h.length == |body| {
      StartsWithFrame(suite, h, body, data);
    }
    if Opened(suite, data, deviceKey) == Ok(Received(h, Some(payload))) {
      VersionSize(data);
      EncryptInverse(suite, key, data[HEADER_SIZE..HEADER_SIZE + h.length], payload);
    }
  }

  // An empty body carries no payload.
  lemma OpensEmpty(suite: Suite, data: seq<Byte>, deviceKey: string, h: Header)
    ensures Opened(suite, data, deviceKey) == Ok(Received(h, None)) <==>
              |h.version| == 3 && h.length == 0 && Framed(suite, h, []) <= data
  {
    hide HeaderOf, Number4, Number2, Framed, Decrypted;
    if |h.version| == 3 && h.length == 0 {
      StartsWithFrame(suite, h, [], data);
    }
    if Opened(suite, data, deviceKey) == Ok(Received(h, None)) {
      VersionSize(data);
    }
  }

  lemma VersionSize(data: seq<Byte>)
    requires |data| >= HEADER_SIZE
    ensures |HeaderOf(data).version| == 3
  {
  }

  lemma SealedSize(suite: Suite, h: Header, deviceKey: string, payload: seq<Byte>)
    ensures |Sealed(suite, h, deviceKey, payload)| == (|payload| / BLOCK + 1) * BLOCK
  {
  }

  // The message the encoder sends: the length field keeps the low 16 bits of the length.
  function Sent(suite: Suite, sequence: Word, random: Word, timestamp: Word, protocol: Half, deviceKey: string,
                payload: seq<Byte>): (Header, seq<Byte>)
  {
    var h := Header(VERSION, sequence, random, timestamp, protocol, 0);
    var body := Sealed(suite, h, deviceKey, payload);
    var h' := h.(length := |body| % 0x1_0000);
    (h', Framed(suite, h', body))
  }

  const MAX_PAYLOAD := 65519

  // A sent message followed by anything is read back exactly when its payload is not too long.
  lemma RoundTripIff(suite: Suite, sequence: Word, random: Word, timestamp: Word, protocol: Half, deviceKey: string,
                     payload: seq<Byte>, more: seq<Byte>)
    requires Lawful(suite)
    ensures var (h, message) := Sent(suite, sequence, random, timestamp, protocol, deviceKey, payload);
            var r := Opened(suite, message + more, deviceKey);
            && (r == Ok(Received(h, Some(payload))) <==> |payload| <= MAX_PAYLOAD)
            && (r.Ok? && r.value.payload == Some(payload) <==> |payload| <= MAX_PAYLOAD)
  {
    hide HeaderOf, Number4, Number2, Encrypted, Decrypted, Framed;
    var (h, message) := Sent(suite, sequence, random, timestamp, protocol, deviceKey, payload);
    var body := Sealed(suite, h, deviceKey, payload);
    var r := Opened(suite, message + more, deviceKey);
    SealedSize(suite, h, deviceKey, payload);
    DecryptInverse(suite, KeyOf(suite, timestamp, deviceKey), payload);
    if |payload| <= MAX_PAYLOAD {
      assert |body| == h.length;
      assert message <= message + more;
      StartsWithFrame(suite, h, body, message + more);
    } else {
      OpenedIsShort(suite, message + more, deviceKey);
    }
  }

  // The length field has 16 bits, and padding takes at least one byte.
  lemma OpenedIsShort(suite: Suite, data: seq<Byte>, deviceKey: string)
    ensures var r := Opened(suite, data, deviceKey);
            r.Ok? && r.value.payload.Some? ==> |r.value.payload.value| <= MAX_PAYLOAD
  {
    hide HeaderOf, Number4, Number2, Blocks;
  }

  // The connection's side of the protocol.
  class Codec {
    const suite: Suite
    var counter: Word

    constructor (suite: Suite)
      ensures this.suite == suite && counter == 0
    {
      this.suite, counter := suite, 0;
    }

    method NextSequenceNumber() returns (sequence: Word)
      modifies this`counter
      ensures sequence == counter == (old(counter) + 1) % 0x1_0000_0000
    {
      counter := (counter + 1) % 0x1_0000_0000;
      return counter;
    }

    method Encode(payload: seq<Byte>, deviceKey: string, protocol: Half, timestamp: Word, random: Word)
        returns (message: seq<Byte>, sequence: Word)
      modifies this`counter
      ensures sequence == counter == (old(counter) + 1) % 0x1_0000_0000
      ensures message == Sent(suite, sequence, random, timestamp, protocol, deviceKey, payload).1
    {
      sequence := NextSequenceNumber();
      var key := DeriveKey(suite, timestamp, deviceKey);
      var encrypted := EncryptECB(suite, payload, key);
      var h := Header(VERSION, sequence, random, timestamp, protocol, |encrypted| % 0x1_0000);
      var header := WriteHeader(h);
      message := header[..] + encrypted;
      var footer := new Byte[FOOTER_SIZE];
      PutWord(footer, 0, suite.crc(message));
      assert footer[..] == footer[0..0 + 4];
      message := message + footer[..];
    }

    method Decode(data: seq<Byte>, deviceKey: string) returns (r: Result<Received, DecodeError>)
      ensures r == Opened(suite, data, deviceKey)
    {
      if |data| < HEADER_SIZE + FOOTER_SIZE {
        return Err(TooShort);
      }
      var header := HeaderOf(data);
      var end := HEADER_SIZE + header.length;
      if |data| < end + FOOTER_SIZE {
        return Err(Truncated);
      }
      if suite.crc(data[..end]) != Number4(data[end..end + FOOTER_SIZE]) {
        return Err(ChecksumMismatch);
      }
      var encrypted := data[HEADER_SIZE..end];
      if |encrypted| == 0 {
        return Ok(Received(header, None));
      }
      var key := DeriveKey(suite, header.timestamp, deviceKey);
      var decrypted := DecryptECB(suite, encrypted, key);
      if decrypted.Err? {
        return Err(BadPayload(decrypted.error));
      }
      return Ok(Received(header, Some(decrypted.value)));
    }
  }

  method DeriveKey(suite: Suite, timestamp: Word, deviceKey: string) returns (key: Block)
    ensures key == KeyOf(suite, timestamp, deviceKey)
  {
    var shuffled := ShuffleTimestamp(timestamp);
    key := suite.md5(shuffled + deviceKey + SALT);
  }

  method WriteHeader(h: Header) returns (header: array<Byte>)
    requires h.version == VERSION
    ensures fresh(header) && header[..] == HeaderBytes(h)
  {
    header := new Byte[HEADER_SIZE];
    header[0], header[1], header[2] := VERSION[0], VERSION[1], VERSION[2];
    PutWord(header, 3, h.sequence);
    label sequenced:
    PutWord(header, 7, h.random);
    label randomized:
    PutWord(header, 11, h.timestamp);
    label stamped:
    PutHalf(header, 15, h.protocol);
    label addressed:
    PutHalf(header, 17, h.length);
    hide Bytes4, Bytes2;
    assert header[17..19] == Bytes2(h.length);
    assert header[15..17] == old@addressed(header[15..17]) == Bytes2(h.protocol);
    assert header[11..15] == old@stamped(header[11..15]) == Bytes4(h.timestamp);
    assert header[7..11] == old@randomized(header[7..11]) == Bytes4(h.random);
    assert header[3..7] == old@sequenced(header[3..7]) == Bytes4(h.sequence);
    assert header[..3] == VERSION;
    assert header[..] == header[..3] + header[3..7] + header[7..11] + header[11..15] + header[15..17] + header[17..19];
  }

  method PutHalf(buffer: array<Byte>, at: nat, h: Half)
    requires at + 2 <= buffer.Length
    modifies buffer
    ensures buffer[at..at + 2] == Bytes2(h)
    ensures forall i :: 0 <= i < buffer.Length && !(at <= i < at + 2) ==> buffer[i] == old(buffer[i])
  {
    buffer[at], buffer[at + 1] := h / 0x100, h % 0x100;
  }

  method PutWord(buffer: array<Byte>, at: nat, w: Word)
    requires at + 4 <= buffer.Length
    modifies buffer
    ensures buffer[at..at + 4] == Bytes4(w)
    ensures forall i :: 0 <= i < buffer.Length && !(at <= i < at + 4) ==> buffer[i] == old(buffer[i])
  {
    PutHalf(buffer, at, w / 0x1_0000);
    PutHalf(buffer, at + 2, w % 0x1_0000);
    assert buffer[at..at + 4] == buffer[at..at + 2] + buffer[at + 2..at + 4];
  }
}
