// Bytes, and fixed-width unsigned integers read from a byte sequence.

module Bytes {

  type byte = b: int | 0 <= b < 256

  datatype Option<+T> = None | Some(value: T)

  datatype Result<+T> = Ok(value: T) | Error(message: string)
  {
    predicate IsFailure() { Error? }

    function PropagateFailure<U>(): (r: Result<U>)
      requires Error?
    {
      Error(message)
    }

    function Extract(): T
      requires Ok?
    {
      value
    }
  }

  // The value of a big-endian field.
  function BigEndian(field: seq<byte>): (value: nat)
    decreases |field|
  {
    if field == [] then 0 else BigEndian(field[..|field| - 1]) * 256 + field[|field| - 1]
  }

  // The value of a little-endian field.
  function LittleEndian(field: seq<byte>): (value: nat)
    decreases |field|
  {
    if field == [] then 0 else field[0] + 256 * LittleEndian(field[1..])
  }

  function Power256(width: nat): (p: nat)
    ensures p > 0
  {
    if width == 0 then 1 else 256 * Power256(width - 1)
  }

  // `value` as a big-endian field of `width` bytes.
  function ToBigEndian(value: nat, width: nat): (field: seq<byte>)
    requires value < Power256(width)
    ensures |field| == width
    decreases width
  {
    if width == 0 then [] else ToBigEndian(value / 256, width - 1) + [value % 256]
  }

  // `value` as a little-endian field of `width` bytes.
  function ToLittleEndian(value: nat, width: nat): (field: seq<byte>)
    requires value < Power256(width)
    ensures |field| == width
    decreases width
  {
    if width == 0 then [] else [value % 256] + ToLittleEndian(value / 256, width - 1)
  }

  lemma {:induction false} LittleEndianRoundTrip(value: nat, width: nat)
    requires value < Power256(width)
    ensures LittleEndian(ToLittleEndian(value, width)) == value
    decreases width
  {
    if width > 0 {
      LittleEndianRoundTrip(value / 256, width - 1);
      var field := ToLittleEndian(value, width);
      assert field[1..] == ToLittleEndian(value / 256, width - 1);
    }
  }

  lemma Powers()
    ensures Power256(1) == 0x100 && Power256(2) == 0x1_0000 && Power256(4) == 0x1_0000_0000
    ensures Power256(8) == 0x1_0000_0000_0000_0000
  {
    assert Power256(3) == 0x100_0000;
    assert Power256(5) == 0x100_0000_0000;
    assert Power256(6) == 0x1_0000_0000_0000;
    assert Power256(7) == 0x100_0000_0000_0000;
  }

  lemma {:induction false} BigEndianRoundTrip(value: nat, width: nat)
    requires value < Power256(width)
    ensures BigEndian(ToBigEndian(value, width)) == value
    decreases width
  {
    if width > 0 {
      BigEndianRoundTrip(value / 256, width - 1);
      var field := ToBigEndian(value, width);
      assert field[..width - 1] == ToBigEndian(value / 256, width - 1);
    }
  }
}
