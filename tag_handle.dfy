/**
 * The type-safe handle: a 32-bit id tagged with the kind of object it
 * names, with the all-ones value reserved for "no object".
 */
module TagHandles {
  /** The handle's id type: 32-bit unsigned. */
  type HandleType = bv32

  /** HandleType(-1): minus one converted to the unsigned 32-bit id type, which wraps to all ones. */
  const InvalidHandle: HandleType := 0xFFFF_FFFF

  /**
   * The reserved id is -1 reduced modulo 2^32, the largest id there is, and
   * the one that wraps to 0 on increment.
   */
  lemma InvalidIsMax(h: HandleType)
    ensures InvalidHandle as int == (-1) % 0x1_0000_0000
    ensures h <= InvalidHandle
    ensures InvalidHandle + 1 == 0
  {
  }

  /** A handle; the object it names lives elsewhere. */
  class TagHandle {
    var id: HandleType

    /** The default constructor leaves the id at the reserved value. */
    constructor Default()
      ensures id == InvalidHandle
      ensures !IsValid()
    {
      id := InvalidHandle;
    }

    /** The explicit constructor stores the given id unchanged. */
    constructor (h: HandleType)
      ensures id == h
      ensures IsValid() <==> h != InvalidHandle
    {
      id := h;
    }

    /** Whether the handle names an object: its id is not the reserved one. */
    predicate IsValid()
      reads this
    {
      id != InvalidHandle
    }

    /** Makes the handle name nothing; calling it again changes nothing more. */
    method Invalidate()
      modifies this
      ensures id == InvalidHandle
      ensures !IsValid()
      ensures old(id) == InvalidHandle ==> id == old(id)
    {
      id := InvalidHandle;
    }
  }
}
