/** The 16-byte header of a wire protocol message (message.go, opcode.go, util.go). */
module Message {
  import opened Bytes

  const MSG_HEADER_LEN: nat := 16
  const MAX_MESSAGE_SIZE: nat := 48 * 1000 * 1000
  const MIN_MESSAGE_SIZE: nat := 24

  newtype Int32 = x: int | -0x8000_0000 <= x < 0x8000_0000

  datatype MsgHeader = MsgHeader(messageLength: Int32, requestID: Int32, responseTo: Int32, opCode: Int32) {
    predicate LooksReal() {
      && MIN_MESSAGE_SIZE <= messageLength as int <= MAX_MESSAGE_SIZE
      && requestID >= 0
      && responseTo >= 0
      && GoodOpCode(opCode)
    }
  }

  predicate GoodOpCode(c: Int32) {
    c == 1 || 2001 <= c <= 2007 || 2010 <= c <= 2013
  }

  /** Little-endian; the top byte carries the sign. */
  function GetInt32(b: seq<Byte>, pos: nat): Int32
    requires pos + 4 <= |b|
  {
    var u := b[pos] as int + 0x100 * b[pos + 1] as int + 0x1_0000 * b[pos + 2] as int + 0x100_0000 * b[pos + 3] as int;
    (if u < 0x8000_0000 then u else u - 0x1_0000_0000) as Int32
  }

  function ByteOf(i: int): Byte {
    (i % 0x100) as Byte
  }

  function Int32Bytes(i: Int32): seq<Byte> {
    [ByteOf(i as int), ByteOf(i as int / 0x100), ByteOf(i as int / 0x1_0000), ByteOf(i as int / 0x100_0000)]
  }

  function Wire(m: MsgHeader): seq<Byte> {
    Int32Bytes(m.messageLength) + Int32Bytes(m.requestID) + Int32Bytes(m.responseTo) + Int32Bytes(m.opCode)
  }

  function FromWire(b: seq<Byte>): MsgHeader
    requires |b| >= MSG_HEADER_LEN
  {
    MsgHeader(GetInt32(b, 0), GetInt32(b, 4), GetInt32(b, 8), GetInt32(b, 12))
  }

  lemma IntRoundTrip(i: Int32)
    ensures GetInt32(Int32Bytes(i), 0) == i
  {
    var n := i as int;
    assert n / 0x1_0000 == n / 0x100 / 0x100 && n / 0x100_0000 == n / 0x1_0000 / 0x100;
    var top := n / 0x100_0000;
    assert -0x80 <= top < 0x80;
    assert n == n % 0x100 + 0x100 * (n / 0x100 % 0x100) + 0x1_0000 * (n / 0x1_0000 % 0x100) + 0x100_0000 * top;
    assert top % 0x100 == if top < 0 then top + 0x100 else top;
  }

  lemma LowByte(q: int, r: int)
    requires 0 <= r < 0x100
    ensures (r + 0x100 * q) % 0x100 == r && (r + 0x100 * q) / 0x100 == q
  {
  }

  lemma BytesRoundTrip(b: seq<Byte>, pos: nat)
    requires pos + 4 <= |b|
    ensures Int32Bytes(GetInt32(b, pos)) == b[pos..pos + 4]
  {
    var i := GetInt32(b, pos) as int;
    var b0, b1, b2, b3 := b[pos] as int, b[pos + 1] as int, b[pos + 2] as int, b[pos + 3] as int;
    var t := if b3 < 0x80 then b3 else b3 - 0x100;
    LowByte(b1 + 0x100 * (b2 + 0x100 * t), b0);
    LowByte(b2 + 0x100 * t, b1);
    LowByte(t, b2);
    assert i / 0x1_0000 == i / 0x100 / 0x100 && i / 0x100_0000 == i / 0x100 / 0x100 / 0x100;
    assert t % 0x100 == b3;
  }

  lemma GetShifted(b: seq<Byte>, c: seq<Byte>, pos: nat)
    requires pos + 4 <= |b| && 4 <= |c| && b[pos..pos + 4] == c[..4]
    ensures GetInt32(b, pos) == GetInt32(c, 0)
  {
    assert b[pos] == b[pos..pos + 4][0] && b[pos + 1] == b[pos..pos + 4][1];
    assert b[pos + 2] == b[pos..pos + 4][2] && b[pos + 3] == b[pos..pos + 4][3];
  }

  /** Reading a header back gives the header. */
  lemma HeaderRoundTrip(m: MsgHeader)
    ensures FromWire(Wire(m)) == m
  {
    var w := Wire(m);
    GetShifted(w, Int32Bytes(m.messageLength), 0);
    GetShifted(w, Int32Bytes(m.requestID), 4);
    GetShifted(w, Int32Bytes(m.responseTo), 8);
    GetShifted(w, Int32Bytes(m.opCode), 12);
    IntRoundTrip(m.messageLength);
    IntRoundTrip(m.requestID);
    IntRoundTrip(m.responseTo);
    IntRoundTrip(m.opCode);
  }

  /** Writing a header that was read gives the bytes. */
  lemma WireRoundTrip(b: seq<Byte>)
    requires |b| >= MSG_HEADER_LEN
    ensures Wire(FromWire(b)) == b[..MSG_HEADER_LEN]
  {
    BytesRoundTrip(b, 0);
    BytesRoundTrip(b, 4);
    BytesRoundTrip(b, 8);
    BytesRoundTrip(b, 12);
  }

  /** Least significant byte first; negative numbers in two's complement. */
  lemma LittleEndian(b: seq<Byte>, pos: nat)
    requires pos + 4 <= |b|
    ensures var u := b[pos] as int + 256 * (b[pos + 1] as int + 256 * (b[pos + 2] as int + 256 * b[pos + 3] as int));
            GetInt32(b, pos) as int == if b[pos + 3] < 128 then u else u - 0x1_0000_0000
  {
  }

  /** Where the fields stand. */
  lemma WireLayout(m: MsgHeader)
    ensures var b := Wire(m);
            && |b| == 16 && GetInt32(b, 0) == m.messageLength && GetInt32(b, 4) == m.requestID
            && GetInt32(b, 8) == m.responseTo && GetInt32(b, 12) == m.opCode
  {
    HeaderRoundTrip(m);
  }

  /** The headers that are taken for real: sizes from 24 bytes to 48 million, and the opcodes of the
      wire protocol: reply, update, insert, the reserved one, query, get more, delete, kill
      cursors, command, command reply, compressed and message. */
  lemma RealHeaders(m: MsgHeader)
    ensures m.LooksReal() <==>
      && 24 <= m.messageLength as int <= 48_000_000 && m.requestID >= 0 && m.responseTo >= 0
      && m.opCode in {1, 2001, 2002, 2003, 2004, 2005, 2006, 2007, 2010, 2011, 2012, 2013}
  {
  }

  method SetInt32(b: array<Byte>, pos: nat, i: Int32)
    requires pos + 4 <= b.Length
    modifies b
    ensures b[pos..pos + 4] == Int32Bytes(i)
    ensures forall k: nat :: k < b.Length && (k < pos || k >= pos + 4) ==> b[k] == old(b[k])
  {
    b[pos] := ByteOf(i as int);
    b[pos + 1] := ByteOf(i as int / 0x100);
    b[pos + 2] := ByteOf(i as int / 0x1_0000);
    b[pos + 3] := ByteOf(i as int / 0x100_0000);
  }

  method ToWire(m: MsgHeader) returns (b: array<Byte>)
    ensures fresh(b) && b[..] == Wire(m)
  {
    b := new Byte[MSG_HEADER_LEN];
    SetInt32(b, 0, m.messageLength);
    SetInt32(b, 4, m.requestID);
    assert b[0..4] == Int32Bytes(m.messageLength);
    SetInt32(b, 8, m.responseTo);
    assert b[0..4] == Int32Bytes(m.messageLength) && b[4..8] == Int32Bytes(m.requestID);
    SetInt32(b, 12, m.opCode);
    assert b[0..4] == Int32Bytes(m.messageLength) && b[4..8] == Int32Bytes(m.requestID);
    assert b[8..12] == Int32Bytes(m.responseTo);
    assert b[..] == b[0..4] + b[4..8] + b[8..12] + b[12..16];
  }
}
