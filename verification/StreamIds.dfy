/** The 64-bit stream ids: default, external pointer, or packed pool type and index. */
module StreamIds {

  type StreamId = bv64

  const DEFAULT: bv64 := 0x0
  const EXT: bv64 := 0xF

  /** The ids are signed in the source. */
  predicate Negative(s: StreamId) {
    s & 0x8000_0000_0000_0000 != 0
  }

  /** Right shift of a signed id keeps the sign. */
  function ShiftRight(s: StreamId, k: bv64): StreamId
    requires 0 < k < 64
  {
    if Negative(s) then (s >> k) | !(0xFFFF_FFFF_FFFF_FFFF >> k) else s >> k
  }

  datatype DecodedType = Type(t: bv64) | Invalid

  /** The type bits of an id; an odd id whose type bits are zero is an internal error. */
  function StreamIdType(s: StreamId): DecodedType {
    if s & 1 == 0 && s != 0 then Type(EXT)
    else
      var val := ShiftRight(s, 1) & 0xF;
      if val != 0 || s & 1 == 0 then Type(val) else Invalid
  }

  function StreamIdIndex(s: StreamId): bv64 {
    ShiftRight(s, 5) & 0x1F
  }

  function MakeStreamId(t: bv64, index: bv64): StreamId
    requires t <= 0xFF
  {
    if t == DEFAULT then 0 else (index << 5) | (t << 1) | 1
  }

  // ----- What the ids mean -----

  predicate IsDefault(s: StreamId) {
    s == 0
  }

  predicate IsExternal(s: StreamId) {
    s & 1 == 0 && s != 0
  }

  predicate IsNative(s: StreamId) {
    s & 1 == 1
  }

  /** Default, external and native ids partition all 64-bit values, and the type
      decoder tells them apart, except that an odd id with type bits 15 also reads
      as external and one with type bits 0 is rejected. */
  lemma IdsPartition(s: StreamId)
    ensures IsDefault(s) || IsExternal(s) || IsNative(s)
    ensures !(IsDefault(s) && IsExternal(s)) && !(IsDefault(s) && IsNative(s)) && !(IsExternal(s) && IsNative(s))
    ensures StreamIdType(s) == Type(DEFAULT) <==> IsDefault(s)
    ensures StreamIdType(s) == Type(EXT) <==> IsExternal(s) || (IsNative(s) && (s >> 1) & 0xF == 0xF)
    ensures StreamIdType(s) == Invalid <==> IsNative(s) && (s >> 1) & 0xF == 0
  {
  }

  /** Decoding inverts encoding for every native type and every index of the pool. */
  lemma DecodeInvertsMake(t: bv64, index: bv64)
    requires 1 <= t <= 14 && index < 32
    ensures var s := MakeStreamId(t, index);
            IsNative(s) && !Negative(s) && StreamIdType(s) == Type(t) && StreamIdIndex(s) == index
  {
  }

  /** Native ids are different for different types or indices. */
  lemma MakeIsInjective(t: bv64, index: bv64, t': bv64, index': bv64)
    requires 1 <= t <= 14 && index < 32 && 1 <= t' <= 14 && index' < 32
    requires MakeStreamId(t, index) == MakeStreamId(t', index')
    ensures t == t' && index == index'
  {
    DecodeInvertsMake(t, index);
    DecodeInvertsMake(t', index');
  }

  /** Encoding inverts decoding exactly on the ids whose upper 54 bits are zero. */
  lemma MakeInvertsDecode(s: StreamId)
    requires StreamIdType(s).Type? && IsNative(s) && StreamIdType(s).t != EXT
    ensures 1 <= StreamIdType(s).t <= 14 && StreamIdIndex(s) < 32
    ensures MakeStreamId(StreamIdType(s).t, StreamIdIndex(s)) == s <==> s >> 10 == 0
  {
  }

  /** An index outside the pool is truncated to its low five bits, and leaves the type alone. */
  lemma WideIndexIsTruncated(t: bv64, index: bv64)
    requires 1 <= t <= 14
    ensures StreamIdType(MakeStreamId(t, index)) == Type(t)
    ensures StreamIdIndex(MakeStreamId(t, index)) == index & 0x1F
  {
  }
}
