/** The Confluent wire-format header that `GetSchema(byte[])` reads: a magic
    byte 0x00 followed by the schema id as four big-endian bytes. */
module WireFormat {
  import opened Values

  const MagicByte: byte := 0
  const HeaderLength: nat := 5

  /** `(b1 << 24) | (b2 << 16) | (b3 << 8) | b4` evaluated in C#'s 32-bit
      `int`: the four bytes occupy disjoint bits, so the OR is a sum, and bit 31
      is the sign bit. */
  function SchemaIdOf(b1: byte, b2: byte, b3: byte, b4: byte): (id: int)
    ensures -0x8000_0000 <= id < 0x8000_0000
    ensures id > 0 <==> b1 < 0x80 && !(b1 == 0 && b2 == 0 && b3 == 0 && b4 == 0)
  {
    var u := b1 as int * 0x100_0000 + b2 as int * 0x1_0000 + b3 as int * 0x100 + b4 as int;
    if u >= 0x8000_0000 then u - 0x1_0000_0000 else u
  }

  /** The schema id of a message, or `None` when the message is too short,
      does not start with the magic byte, or carries an id that is not positive. */
  function DecodeSchemaId(message: seq<byte>): (r: Option<int>)
    ensures r.Some? ==> 0 < r.value < 0x8000_0000
    ensures r.Some? <==>
      && |message| >= HeaderLength
      && message[0] == MagicByte
      && message[1] < 0x80
      && message[1..5] != [0, 0, 0, 0]
  {
    if |message| < HeaderLength || message[0] != MagicByte then None
    else
      var id := SchemaIdOf(message[1], message[2], message[3], message[4]);
      if id <= 0 then None else Some(id)
  }

  /** The header a producer writes in front of a payload for schema `id`:
      the id's base-256 digits, most significant first. */
  function Header(id: int): (h: seq<byte>)
    requires 0 < id < 0x8000_0000
    ensures |h| == HeaderLength && h[0] == MagicByte
  {
    var r1 := id / 0x100;
    var r2 := r1 / 0x100;
    [MagicByte, (r2 / 0x100) as byte, (r2 % 0x100) as byte, (r1 % 0x100) as byte, (id % 0x100) as byte]
  }

  /** Every positive 32-bit id survives the header, whatever payload follows. */
  lemma {:induction false} DecodeHeader(id: int, payload: seq<byte>)
    requires 0 < id < 0x8000_0000
    ensures DecodeSchemaId(Header(id) + payload) == Some(id)
  {
    var m := Header(id) + payload;
    var r1 := id / 0x100;
    var r2 := r1 / 0x100;
    assert id == r1 * 0x100 + id % 0x100;
    assert r1 == r2 * 0x100 + r1 % 0x100;
    assert r2 == (r2 / 0x100) * 0x100 + r2 % 0x100;
    assert r2 / 0x100 < 0x80;
    var b1, b2, b3, b4 := m[1] as int, m[2] as int, m[3] as int, m[4] as int;
    assert b1 == r2 / 0x100 && b2 == r2 % 0x100 && b3 == r1 % 0x100 && b4 == id % 0x100;
    assert id == b1 * 0x100_0000 + b2 * 0x1_0000 + b3 * 0x100 + b4;
  }

  /** Conversely, a message that decodes to `id` starts with exactly the
      header of `id`. */
  lemma {:induction false} DecodedHeader(message: seq<byte>)
    requires DecodeSchemaId(message).Some?
    ensures message[..HeaderLength] == Header(DecodeSchemaId(message).value)
  {
    var id := DecodeSchemaId(message).value;
    var b1, b2, b3, b4 := message[1] as int, message[2] as int, message[3] as int, message[4] as int;
    assert id == b1 * 0x100_0000 + b2 * 0x1_0000 + b3 * 0x100 + b4;
    var r1 := b1 * 0x1_0000 + b2 * 0x100 + b3;
    var r2 := b1 * 0x100 + b2;
    assert id == r1 * 0x100 + b4;
    assert id / 0x100 == r1 && id % 0x100 == b4;
    assert r1 == r2 * 0x100 + b3;
    assert r1 / 0x100 == r2 && r1 % 0x100 == b3;
    assert r2 / 0x100 == b1 && r2 % 0x100 == b2;
    assert Header(id)[1] == message[1] && Header(id)[2] == message[2];
    assert Header(id)[3] == message[3] && Header(id)[4] == message[4];
  }
}
