/** The unsigned machine words of the engine, as bounded integers, and the smaller of two counts. */
module Words {

  const MAX_U64: int := 0xFFFF_FFFF_FFFF_FFFF

  type u64 = x: int | 0 <= x <= MAX_U64
  type u32 = x: int | 0 <= x <= 0xFFFF_FFFF

  function Min(a: nat, b: nat): nat { if a < b then a else b }
}
