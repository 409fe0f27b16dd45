/** The machine word of the runtime's 64-bit targets. */
module Words {
  /** One more than usize::MAX. */
  const WORD: nat := 0x1_0000_0000_0000_0000

  type word = x: nat | x < WORD

  function Min(a: nat, b: nat): nat { if a <= b then a else b }
}
