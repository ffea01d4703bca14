/** Database keys: short ones inline in a fixed array, long ones boxed. */
module AirKeys {
  import opened Bytes

  /** The room for an inline key. */
  const INLINE: nat := 15

  datatype AirKey = Inline(data: bytes, len: byte) | Boxed(bytes)

  function FromBytes(b: bytes): (k: AirKey)
  {
    if |b| <= INLINE then Inline(b + seq(INLINE - |b|, _ => '\0'), |b| as char) else Boxed(b)
  }

  /** Slicing an inline key by its length is in bounds for every key made by `FromBytes`. */
  predicate KeyOk(k: AirKey) {
    k.Inline? ==> |k.data| == INLINE && k.len as int <= INLINE
  }

  function AsBytes(k: AirKey): bytes
    requires KeyOk(k)
  {
    match k
    case Inline(data, len) => data[..len as int]
    case Boxed(b) => b
  }

  /** Keys lose nothing, so comparing and hashing them by their bytes makes the database a map from byte
      strings: two keys are equal exactly when the strings they were made of are. */
  lemma KeysAreBytes(a: bytes, b: bytes)
    ensures KeyOk(FromBytes(a)) && KeyOk(FromBytes(b))
    ensures AsBytes(FromBytes(a)) == a
    ensures AsBytes(FromBytes(a)) == AsBytes(FromBytes(b)) <==> a == b
    ensures FromBytes(a).Inline? <==> |a| <= 15
  {
  }
}
