/** The fixed-width unsigned integers of the Rust and JavaScript sources. */
module MachineInts {

  newtype u8 = x: int | 0 <= x < 0x100
  newtype u32 = x: int | 0 <= x < 0x1_0000_0000

  const U32_SPAN: nat := 0x1_0000_0000

  /** Rust's `as u32` and JavaScript's storing into a Uint32Array. */
  function ToU32(n: nat): (r: u32)
    ensures n < U32_SPAN ==> r as nat == n
  {
    (n % U32_SPAN) as u32
  }

  /** JavaScript's storing into a Uint8Array. */
  function ToU8(n: nat): (r: u8)
    ensures n < 0x100 ==> r as nat == n
  {
    (n % 0x100) as u8
  }
}
