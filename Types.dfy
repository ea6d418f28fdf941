/**
 * The storage kind of a field. The engine's own type enumeration is not part
 * of this model: a type is known only by an opaque kind tag and by the fixed
 * number of bytes a value of that type occupies in a tuple.
 */
module Types {

  /** A field type: an opaque kind and its fixed byte length. */
  datatype Type = Type(kind: nat, byteLen: nat)

  /** The number of bytes a value of type `t` occupies (the engine's `getLen`). */
  function Len(t: Type): nat
  {
    t.byteLen
  }
}
