/**
 * The DDC/CI wire format used on Apple-silicon Macs: the XOR checksum, the framing of an
 * outgoing command packet and the decoding of a VCP feature reply.
 */
module DdcPacket {
  import opened Wrappers

  type byte = bv8

  /** Size of the reply buffer the platform channel fills for one read. */
  const ReadBufferSize: nat := 11
  /** Sub-address the DDC/CI messages are written to and read from. */
  const DdcDataAddress: byte := 0x51
  /** 7-bit I2C address of the display's DDC/CI endpoint. */
  const Ddc7BitAddress: byte := 0x37
  /** Seed of the checksum a reply is validated against. */
  const ReplySeed: byte := 0x50

  /** The XOR of `seed` with every byte of `s`, folded from left to right. */
  function XorFold(seed: byte, s: seq<byte>): byte
  {
    if s == [] then seed else XorFold(seed, s[..|s| - 1]) ^ s[|s| - 1]
  }

  /** `checksum(chk, data, start, end)`: `chk` XOR `data[start]` XOR ... XOR `data[end]`, `end` inclusive. */
  method Checksum(chk: byte, data: seq<byte>, start: int, end: int) returns (chkd: byte)
    requires start <= end ==> 0 <= start && end < |data|
    ensures start <= end ==> chkd == XorFold(chk, data[start..end + 1])
    ensures end < start ==> chkd == chk
  {
    chkd := chk;
    var i := start;
    while i < end + 1
      invariant end < start ==> i == start && chkd == chk
      invariant start <= end ==> start <= i <= end + 1 && chkd == XorFold(chk, data[start..i])
    {
      assert data[start..i + 1][..i - start] == data[start..i];
      chkd := chkd ^ data[i];
      i := i + 1;
    }
  }

  /** Folding a concatenation is folding the second part onto the fold of the first. */
  lemma {:induction false} XorFoldAppend(seed: byte, a: seq<byte>, b: seq<byte>)
    ensures XorFold(seed, a + b) == XorFold(XorFold(seed, a), b)
    decreases |b|
  {
    if b != [] {
      var b' := b[..|b| - 1];
      assert (a + b)[..|a + b| - 1] == a + b';
      XorFoldAppend(seed, a, b');
    } else {
      assert a + b == a;
    }
  }

  /** Replacing one byte of the folded data by `x` XORs the fold with the old byte and `x`. */
  lemma {:induction false} XorFoldUpdate(seed: byte, s: seq<byte>, i: nat, x: byte)
    requires i < |s|
    ensures XorFold(seed, s[i := x]) == XorFold(seed, s) ^ s[i] ^ x
    decreases |s|
  {
    var t := s[i := x];
    if i == |s| - 1 {
      assert t[..|t| - 1] == s[..|s| - 1];
    } else {
      assert t[..|t| - 1] == s[..|s| - 1][i := x];
      XorFoldUpdate(seed, s[..|s| - 1], i, x);
    }
  }

  /** Python's `bytearray.append` accepts exactly the integers 0 to 255. */
  predicate IsByte(x: int) { 0 <= x < 256 }

  /** The byte whose value is `x`, counted up from zero. */
  function ToByte(x: nat): (b: byte)
    requires x < 256
    ensures b as int == x
  {
    if x == 0 then 0 else ToByte(x - 1) + 1
  }

  /**
   * A payload the packet builder accepts: the header byte `0x80 | (n + 1)` must itself be a
   * byte, so at most 254 payload bytes, and every payload element must be a byte.
   */
  predicate ValidPayload(send: seq<int>)
  {
    |send| + 1 < 256 && forall i :: 0 <= i < |send| ==> IsByte(send[i])
  }

  /** The payload elements as bytes. */
  function Bytes(send: seq<int>): (b: seq<byte>)
    requires ValidPayload(send)
    ensures |b| == |send| && forall i :: 0 <= i < |send| ==> b[i] as int == send[i]
  {
    seq(|send|, i requires 0 <= i < |send| => ToByte(send[i]))
  }

  /**
   * The checksum seed of a write: the host's 8-bit address `0x37 << 1` for a one-byte (read
   * request) payload, XORed with the data address `0x51` for every other payload.
   */
  function WriteSeed(payloadLength: nat): (s: byte)
    ensures payloadLength == 1 ==> s == 0x6E
    ensures payloadLength != 1 ==> s == 0x3F
  {
    if payloadLength == 1 then Ddc7BitAddress << 1 else (Ddc7BitAddress << 1) ^ DdcDataAddress
  }

  /** The header byte `0x80 | (n + 1)` of a packet with an `n`-byte payload: bit 7 set on `n + 1`. */
  function Header(n: nat): (h: byte)
    requires n + 1 < 256
    ensures h as int == if n + 1 >= 0x80 then n + 1 else n + 1 + 0x80
  {
    0x80 | ToByte(n + 1)
  }

  /** Reference framing: header, payload length, payload, then the checksum of all that. */
  function Encode(payload: seq<byte>): seq<byte>
    requires |payload| + 1 < 256
  {
    var frame := [Header(|payload|), ToByte(|payload|)] + payload;
    frame + [XorFold(WriteSeed(|payload|), frame)]
  }

  /** The layout of an encoded packet, byte by byte. */
  lemma EncodeLayout(payload: seq<byte>)
    requires |payload| + 1 < 256
    ensures var p := Encode(payload);
      && |p| == |payload| + 3
      && p[0] as int == (if |payload| + 1 >= 0x80 then |payload| + 1 else |payload| + 1 + 0x80)
      && p[1] as int == |payload|
      && p[2..|p| - 1] == payload
      && p[|p| - 1] == XorFold(WriteSeed(|payload|), p[..|p| - 1])
  {
    var p := Encode(payload);
    assert p[..|p| - 1] == [Header(|payload|), ToByte(|payload|)] + payload;
  }

  /** A packet is accepted by a receiver that recomputes its checksum with the same seed. */
  predicate ChecksumMatches(seed: byte, p: seq<byte>)
  {
    |p| >= 1 && XorFold(seed, p[..|p| - 1]) == p[|p| - 1]
  }

  /** Every encoded packet carries a checksum that matches its contents. */
  lemma EncodedPacketValidates(payload: seq<byte>)
    requires |payload| + 1 < 256
    ensures ChecksumMatches(WriteSeed(|payload|), Encode(payload))
  {
    var p := Encode(payload);
    assert p[..|p| - 1] == [Header(|payload|), ToByte(|payload|)] + payload;
  }

  /** XORing a value with two different bytes in turn changes it. */
  lemma XorWithDifferentBytes(a: byte, b: byte, c: byte)
    requires b != c
    ensures a ^ b ^ c != a
  {
  }

  /** Changing any single byte of a packet with a matching checksum makes the checksum fail. */
  lemma SingleByteChangeDetected(seed: byte, p: seq<byte>, i: nat, x: byte)
    requires ChecksumMatches(seed, p)
    requires i < |p| && x != p[i]
    ensures !ChecksumMatches(seed, p[i := x])
  {
    var q := p[i := x];
    var body := p[..|p| - 1];
    if i < |p| - 1 {
      assert q[..|q| - 1] == body[i := x];
      XorFoldUpdate(seed, body, i, x);
      XorWithDifferentBytes(XorFold(seed, body), p[i], x);
    } else {
      assert q[..|q| - 1] == body;
    }
  }

  /**
   * The first part of the packet construction of `performDDCCommunication`: append the header,
   * the payload length and then the payload one element at a time. `None` stands for the
   * ValueError `bytearray.append` raises on a value that is not a byte.
   */
  method AppendFrame(send: seq<int>) returns (frame: Option<seq<byte>>)
    ensures frame.None? <==> !ValidPayload(send)
    ensures ValidPayload(send) ==> frame == Some([Header(|send|), ToByte(|send|)] + Bytes(send))
  {
    var n := |send|;
    if n + 1 >= 256 {
      return None;
    }
    var p: seq<byte> := [Header(n), ToByte(n)];
    for i := 0 to n
      invariant |p| == i + 2
      invariant p[..2] == [Header(n), ToByte(n)]
      invariant forall k :: 0 <= k < i ==> IsByte(send[k]) && p[k + 2] == ToByte(send[k])
    {
      if !IsByte(send[i]) {
        assert !ValidPayload(send);
        return None;
      }
      p := p + [ToByte(send[i])];
    }
    assert p == [Header(n), ToByte(n)] + Bytes(send);
    frame := Some(p);
  }

  /**
   * The end of the packet construction of `performDDCCommunication`: append a placeholder byte
   * and overwrite it with the checksum, seeded with `seed`, of every byte before it.
   */
  method Seal(frame: seq<byte>, seed: byte) returns (p: seq<byte>)
    ensures p == frame + [XorFold(seed, frame)]
  {
    p := frame + [0];
    var chk := Checksum(seed, p, 0, |p| - 2);
    assert p[0..|p| - 2 + 1] == frame;
    p := p[|p| - 1 := chk];
    assert p == frame + [chk];
  }

  /** The packet construction of `performDDCCommunication`: the frame, sealed with its checksum. */
  method BuildPacket(send: seq<int>) returns (packet: Option<seq<byte>>)
    ensures packet.None? <==> !ValidPayload(send)
    ensures ValidPayload(send) ==> packet == Some(Encode(Bytes(send)))
  {
    var maybeFrame := AppendFrame(send);
    if maybeFrame.None? {
      return None;
    }
    var p := Seal(maybeFrame.value, WriteSeed(|send|));
    packet := Some(p);
  }

  /** The 16-bit big-endian word `hi * 256 + lo`. */
  function Word(hi: byte, lo: byte): (w: nat)
    ensures w < 0x10000
    ensures w / 256 == hi as int && w % 256 == lo as int
  {
    hi as int * 256 + lo as int
  }

  /**
   * The decoding in `read`: a VCP feature reply carries the maximum in bytes 6 and 7 and the
   * current value in bytes 8 and 9, both big-endian. Returns `(current, max)`.
   */
  function DecodeFeatureReply(reply: seq<byte>): (r: (nat, nat))
    requires |reply| == ReadBufferSize
    ensures r.0 < 0x10000 && r.0 / 256 == reply[8] as int && r.0 % 256 == reply[9] as int
    ensures r.1 < 0x10000 && r.1 / 256 == reply[6] as int && r.1 % 256 == reply[7] as int
  {
    (Word(reply[8], reply[9]), Word(reply[6], reply[7]))
  }

  /** A reply whose value and maximum bytes hold the big-endian `current` and `maximum` decodes to them. */
  lemma DecodeRecoversWords(reply: seq<byte>, current: nat, maximum: nat)
    requires |reply| == ReadBufferSize && current < 0x10000 && maximum < 0x10000
    requires reply[6] as int == maximum / 256 && reply[7] as int == maximum % 256
    requires reply[8] as int == current / 256 && reply[9] as int == current % 256
    ensures DecodeFeatureReply(reply) == (current, maximum)
  {
    var r := DecodeFeatureReply(reply);
    assert r.0 == r.0 / 256 * 256 + r.0 % 256;
    assert current == current / 256 * 256 + current % 256;
    assert r.1 == r.1 / 256 * 256 + r.1 % 256;
    assert maximum == maximum / 256 * 256 + maximum % 256;
  }
}
