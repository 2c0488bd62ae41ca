/** Bytes, big-endian integers and length-prefixed strings, as the chat protocol writes them. */
module Bytes {

  type Byte = x: int | 0 <= x < 256

  const U16_LIMIT: int := 0x1_0000
  const U32_LIMIT: int := 0x1_0000_0000
  const MAX_U16_COUNT: int := 0xFFFF

  datatype Option<+T> = None | Some(value: T)

  /** A C++ call that returns a value or throws an exception with a message. */
  datatype Result<+T> = Ok(value: T) | Thrown(what: seq<Byte>)

  /** The bytes of a string literal of the source. */
  function Text(s: string): (r: seq<Byte>)
    ensures |r| == |s|
  {
    seq(|s|, i requires 0 <= i < |s| => s[i] as int % 256)
  }

  /** write_u16_be appends the low sixteen bits of its argument. */
  function WriteU16(v: nat): (r: seq<Byte>)
    ensures |r| == 2 && ReadU16(r) == v % U16_LIMIT
  {
    [v / 256 % 256, v % 256]
  }

  function ReadU16(data: seq<Byte>): (v: nat)
    requires |data| >= 2
    ensures v < U16_LIMIT
  {
    (data[0] as int) * 256 + data[1]
  }

  /** write_u32_be: the high half, then the low half, each most significant byte first. */
  function WriteU32(v: nat): (r: seq<Byte>)
    ensures |r| == 4 && ReadU32(r) == v % U32_LIMIT
  {
    var r := WriteU16(v / U16_LIMIT) + WriteU16(v % U16_LIMIT);
    assert r[..2] == WriteU16(v / U16_LIMIT) && r[2..] == WriteU16(v % U16_LIMIT);
    assert v / U16_LIMIT % U16_LIMIT * U16_LIMIT + v % U16_LIMIT == v % U32_LIMIT;
    r
  }

  function ReadU32(data: seq<Byte>): (v: nat)
    requires |data| >= 4
    ensures v < U32_LIMIT
  {
    ReadU16(data[..2]) * U16_LIMIT + ReadU16(data[2..])
  }

  /** Reading inverts writing from the other side too: four bytes are determined by the number they spell. */
  lemma WriteReadU32(data: seq<Byte>)
    requires |data| >= 4
    ensures WriteU32(ReadU32(data)) == data[..4]
  {
    WriteReadU16(data[..2]);
    WriteReadU16(data[2..]);
    assert ReadU32(data) / U16_LIMIT == ReadU16(data[..2]);
    assert data[..4] == data[..2] + data[2..][..2];
  }

  lemma WriteReadU16(data: seq<Byte>)
    requires |data| >= 2
    ensures WriteU16(ReadU16(data)) == data[..2]
  {
    assert ReadU16(data) / 256 == data[0];
  }

  /** encode_string: a sixteen-bit length, then the characters. */
  function EncodeString(value: seq<Byte>): (r: Result<seq<Byte>>)
    ensures r.Ok? <==> |value| <= MAX_U16_COUNT
  {
    if |value| > MAX_U16_COUNT then Thrown(Text("String too long"))
    else Ok(WriteU16(|value|) + value)
  }

  /** decode_string: the characters announced by the length prefix; what follows them is not looked at. */
  function DecodeString(data: seq<Byte>): (r: Result<seq<Byte>>)
    ensures r.Ok? ==> |r.value| <= MAX_U16_COUNT && |data| >= 2 + |r.value|
  {
    if |data| < 2 then Thrown(Text("Invalid string payload"))
    else if |data| < 2 + ReadU16(data) then Thrown(Text("Truncated string payload"))
    else Ok(data[2..2 + ReadU16(data)])
  }

  /** decode_string accepts exactly the inputs that begin with an encoded string, and returns that string. */
  lemma DecodeStringIff(data: seq<Byte>, value: seq<Byte>)
    ensures DecodeString(data) == Ok(value) <==> EncodeString(value).Ok? && EncodeString(value).value <= data
  {
    if DecodeString(data) == Ok(value) {
      WriteReadU16(data);
      assert data[..2 + |value|] == data[..2] + data[2..2 + |value|];
    }
    if EncodeString(value).Ok? && EncodeString(value).value <= data {
      var e := EncodeString(value).value;
      assert data[..2] == e[..2] == WriteU16(|value|);
      assert ReadU16(data) == ReadU16(e);
      assert data[2..2 + |value|] == e[2..] == value;
    }
  }

  /** Decimal digits, as std::to_string prints an unsigned number. */
  function Decimal(n: nat): (r: seq<Byte>)
    ensures |r| >= 1
  {
    if n < 10 then [48 + n] else Decimal(n / 10) + [48 + n % 10]
  }

  /** The number a sequence of decimal digits spells. */
  function Spelled(digits: seq<Byte>): int {
    if digits == [] then 0 else 10 * Spelled(digits[..|digits| - 1]) + (digits[|digits| - 1] as int - 48)
  }

  /** A number prints as the digits '0' to '9' that spell it, without a leading zero. */
  lemma {:induction false} DecimalSpells(n: nat)
    ensures forall i :: 0 <= i < |Decimal(n)| ==> 48 <= Decimal(n)[i] <= 57
    ensures Spelled(Decimal(n)) == n
    ensures Decimal(n)[0] == 48 <==> n == 0
  {
    if n < 10 {
      assert Decimal(n)[..0] == [];
    } else {
      DecimalSpells(n / 10);
      assert Decimal(n)[..|Decimal(n)| - 1] == Decimal(n / 10);
    }
  }

  /** A literal's bytes are its characters. */
  lemma TextBytes(s: string, i: nat)
    requires i < |s| && s[i] as int < 256
    ensures Text(s)[i] == s[i] as int
  {
  }

  /** A number below ten to the k prints in at most k digits. */
  lemma {:induction false} DecimalLength(n: nat, k: nat, limit: nat)
    requires k >= 1 && limit == PowerOfTen(k) && n < limit
    ensures |Decimal(n)| <= k
  {
    if n >= 10 {
      DecimalLength(n / 10, k - 1, PowerOfTen(k - 1));
    }
  }

  function PowerOfTen(k: nat): (r: nat)
    ensures r >= 1
  {
    if k == 0 then 1 else 10 * PowerOfTen(k - 1)
  }
}
