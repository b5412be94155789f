/** The rundown lock: bit 31 of a LONG says "active", the low bits count holders. The LONG is
    kept as its unsigned 32-bit pattern. */
module Rundown {
  import opened Words

  const V_INIT: nat := 0x8000_0000

  predicate Active(v: nat) {
    v >= V_INIT
  }

  function Holders(v: nat): nat {
    v % V_INIT
  }

  /** Interlocked increment and decrement of the pattern. */
  function Incremented(v: nat): nat {
    U32(v + 1)
  }

  function Decremented(v: nat): nat {
    U32(v - 1)
  }

  function BitReset(v: nat): nat {
    if Active(v) then v - V_INIT else v
  }
}
