// The bytes of a message on the wire, one by one.
module WireLayout {
  import opened Common
  import opened BlockCodec
  import opened WireProtocol

  // A whole block of padding follows data that fills its blocks; every byte of the padding is its length.
  lemma PadTells(data: seq<Byte>)
    ensures |Pad(data)| == (|data| / 16 + 1) * 16
    ensures forall i :: 0 <= i < |data| ==> Pad(data)[i] == data[i]
    ensures forall i :: |data| <= i < |Pad(data)| ==> Pad(data)[i] == 16 - |data| % 16
  {
    var padding := BLOCK - |data| % BLOCK;
    assert forall i :: |data| <= i < |Pad(data)| ==> Pad(data)[i] == Filled(padding, padding)[i - |data|];
  }

  lemma {:induction false} BlockAt(f: Block -> Block, data: seq<Byte>, i: nat)
    requires |data| % BLOCK == 0 && BLOCK * i + BLOCK <= |data|
    ensures Blocks(f, data)[BLOCK * i..BLOCK * i + BLOCK] == f(data[BLOCK * i..BLOCK * i + BLOCK])
    decreases i
  {
    var head: seq<Byte>, tail := f(data[..BLOCK]), Blocks(f, data[BLOCK..]);
    assert Blocks(f, data) == head + tail;
    if i > 0 {
      var rest := data[BLOCK..];
      BlockAt(f, rest, i - 1);
      var at := BLOCK * (i - 1);
      assert rest[at..at + BLOCK] == data[BLOCK * i..BLOCK * i + BLOCK];
      assert (head + tail)[BLOCK * i..BLOCK * i + BLOCK] == tail[at..at + BLOCK];
    } else {
      assert (head + tail)[0..BLOCK] == head && data[0..BLOCK] == data[..BLOCK];
    }
  }

  // The last digit and the number before it.
  lemma HexLast(q: nat, r: nat, n: nat)
    requires r < 16 && n > 0
    ensures |Hex(16 * q + r, n)| == n && Hex(16 * q + r, n) == Hex(q, n - 1) + ["0123456789abcdef"[r]]
  {
    assert (16 * q + r) / 16 == q && (16 * q + r) % 16 == r;
  }

  // The number that the digits stand for.
  function FromDigits(digits: seq<nat>): nat {
    if digits == [] then 0 else 16 * FromDigits(digits[..|digits| - 1]) + digits[|digits| - 1]
  }

  lemma {:induction false} HexTells(digits: seq<nat>)
    requires forall i :: 0 <= i < |digits| ==> digits[i] < 16
    ensures forall i :: 0 <= i < |digits| ==>
              Hex(FromDigits(digits), |digits|)[i] == "0123456789abcdef"[digits[i]]
  {
    if digits != [] {
      var front, last := digits[..|digits| - 1], digits[|digits| - 1];
      HexTells(front);
      HexLast(FromDigits(front), last, |digits|);
    }
  }

  lemma {:induction false} Digits(t: nat, n: nat) returns (d: seq<nat>)
    requires t < Power16(n)
    ensures |d| == n && (forall i :: 0 <= i < n ==> d[i] < 16) && t == FromDigits(d)
  {
    if n == 0 {
      d := [];
    } else {
      var front := Digits(t / 16, n - 1);
      d := front + [t % 16];
      assert d[..n - 1] == front;
    }
  }

  // The text that is hashed to the key: the eight hexadecimal digits of the time in their order, the device key and
  // the salt.
  lemma KeyTextTells(t: Word, deviceKey: string) returns (d: seq<nat>)
    ensures |d| == 8 && (forall i :: 0 <= i < 8 ==> d[i] < 16) && t == FromDigits(d)
    ensures var c := "0123456789abcdef";
            KeyText(t, deviceKey) ==
              [c[d[5]], c[d[6]], c[d[3]], c[d[7]], c[d[1]], c[d[2]], c[d[0]], c[d[4]]] + deviceKey
              + "TXdfu$jyZ#TZHsg4"
  {
    assert Power16(8) == 0x1_0000_0000;
    d := Digits(t, 8);
    HexTells(d);
    hide Hex, FromDigits;
    var h := Hex(t, 8);
    assert Shuffled(h) == [h[5], h[6], h[3], h[7], h[1], h[2], h[0], h[4]];
  }

  lemma HeaderTells(h: Header)
    requires h.version == VERSION
    ensures var b := HeaderBytes(h);
            && |b| == 19 && b[..3] == [0x31, 0x2E, 0x30]
            && b[3..7] == Bytes4(h.sequence) && b[7..11] == Bytes4(h.random) && b[11..15] == Bytes4(h.timestamp)
            && b[15..17] == Bytes2(h.protocol) && b[17..19] == Bytes2(h.length)
  {
    Sizes(h);
    hide Bytes2, Bytes4;
  }

  // The highest byte comes first.
  lemma BytesTell(w: Word, h: Half)
    ensures var b := Bytes4(w);
            && |b| == 4
            && w == b[0] as int * 0x100_0000 + b[1] as int * 0x1_0000 + b[2] as int * 0x100 + b[3] as int
    ensures var b := Bytes2(h); |b| == 2 && h == b[0] as int * 0x100 + b[1] as int
  {
  }

  // A sent message: version, sequence number, random number, time, protocol and length; the padded payload, encrypted
  // block by block under the hash of the key text; and the checksum of all that.
  lemma MessageTells(suite: Suite, sequence: Word, random: Word, timestamp: Word, protocol: Half, deviceKey: string,
                     payload: seq<Byte>)
    ensures var m := Sent(suite, sequence, random, timestamp, protocol, deviceKey, payload).1;
            var size, key := (|payload| / 16 + 1) * 16, suite.md5(KeyText(timestamp, deviceKey));
            && |m| == 19 + size + 4 && m[..3] == [0x31, 0x2E, 0x30]
            && m[3..7] == Bytes4(sequence) && m[7..11] == Bytes4(random) && m[11..15] == Bytes4(timestamp)
            && m[15..17] == Bytes2(protocol) && m[17..19] == Bytes2(size % 0x1_0000)
            && (forall i :: 0 <= i < |payload| / 16 + 1 ==>
                  m[19 + 16 * i..35 + 16 * i] == suite.encrypt(key)(Pad(payload)[16 * i..16 * i + 16]))
            && m[19 + size..] == Bytes4(suite.crc(m[..19 + size]))
  {
    PadTells(payload);
    hide Pad, Bytes2, Bytes4, KeyText, HeaderBytes;
    var (h, m) := Sent(suite, sequence, random, timestamp, protocol, deviceKey, payload);
    var size, key := (|payload| / 16 + 1) * 16, suite.md5(KeyText(timestamp, deviceKey));
    var body := Blocks(suite.encrypt(key), Pad(payload));
    HeaderTells(h);
    assert |Bytes4(suite.crc(HeaderBytes(h) + body))| == 4 by { Size4(suite.crc(HeaderBytes(h) + body)); }
    assert m == HeaderBytes(h) + body + Bytes4(suite.crc(HeaderBytes(h) + body));
    LayOut(HeaderBytes(h), body, Bytes4(suite.crc(HeaderBytes(h) + body)));
    forall i | 0 <= i < |payload| / 16 + 1
      ensures m[19 + 16 * i..35 + 16 * i] == suite.encrypt(key)(Pad(payload)[16 * i..16 * i + 16])
    {
      BlockAt(suite.encrypt(key), Pad(payload), i);
      BodyAt(HeaderBytes(h), body, Bytes4(suite.crc(HeaderBytes(h) + body)), 16 * i);
    }
  }

  // Why a message is refused: too short for header and checksum, shorter than it says, or with another checksum.
  lemma RefusalsTell(suite: Suite, data: seq<Byte>, deviceKey: string)
    ensures Opened(suite, data, deviceKey) == Err(TooShort) <==> |data| < 23
    ensures |data| >= 23 ==>
              var end := 19 + (data[17] as int * 0x100 + data[18] as int);
              && (Opened(suite, data, deviceKey) == Err(Truncated) <==> |data| < end + 4)
              && (Opened(suite, data, deviceKey) == Err(ChecksumMismatch) <==>
                    && |data| >= end + 4
                    && suite.crc(data[..end]) as int !=
                         data[end] as int * 0x100_0000 + data[end + 1] as int * 0x1_0000
                         + data[end + 2] as int * 0x100 + data[end + 3] as int)
  {
    hide Decrypted, KeyOf;
  }

  lemma LayOut(header: seq<Byte>, body: seq<Byte>, footer: seq<Byte>)
    requires |header| == 19 && |footer| == 4
    ensures var m := header + body + footer;
            && m[..19 + |body|] == header + body && m[19 + |body|..] == footer
            && m[..3] == header[..3] && m[3..7] == header[3..7] && m[7..11] == header[7..11]
            && m[11..15] == header[11..15] && m[15..17] == header[15..17] && m[17..19] == header[17..19]
  {
  }

  lemma BodyAt(header: seq<Byte>, body: seq<Byte>, footer: seq<Byte>, at: nat)
    requires |header| == 19 && at + 16 <= |body|
    ensures (header + body + footer)[19 + at..35 + at] == body[at..at + 16]
  {
  }
}
