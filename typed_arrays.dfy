/** `createInt8TypedArray(length, position, value)`
    (ES6_data_manipulation/5-typed_arrays.js): a zero-filled buffer of
    `length` bytes with one signed byte written at `position`. The DataView
    is modelled by the array of signed bytes it views. */
module TypedArrays {
  import opened Wrappers

  newtype Int8 = x: int | -128 <= x < 128

  /** The conversion `setInt8` applies to its value (ToInt8 of section 7.1.8
      of ECMA-262, for an integer): the value modulo 2^8, read as a signed
      byte. */
  function ToInt8(value: int): (r: Int8)
    ensures (r as int - value) % 256 == 0
  {
    var m := value % 256;
    (if m >= 128 then m - 256 else m) as Int8
  }

  /** A value already in -128..127 is stored as it is, and values that
      differ by a multiple of 256 store the same byte. */
  lemma ToInt8Properties(value: int, k: int)
    ensures -128 <= value < 128 ==> ToInt8(value) as int == value
    ensures ToInt8(value + 256 * k) == ToInt8(value)
  {
    assert (value + 256 * k) % 256 == value % 256;
  }

  const PositionError: string := "Position outside range"

  method CreateInt8TypedArray(length: int, position: int, value: int) returns (r: Outcome<array<Int8>>)
    ensures r.Throw? <==> position < 0 || position >= length
    ensures r.Throw? ==> r.message == PositionError
    ensures r.Return? ==> fresh(r.value) && r.value.Length == length
    ensures r.Return? ==> r.value[position] == ToInt8(value)
    ensures r.Return? ==> forall i :: 0 <= i < length && i != position ==> r.value[i] == 0
  {
    if position < 0 || position >= length {
      return Throw(PositionError);
    }
    var buffer := new Int8[length](_ => 0);
    buffer[position] := ToInt8(value);
    return Return(buffer);
  }
}
