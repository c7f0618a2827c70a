/** Fixed-width integer ranges of the Rust types the solvers use. */
module MachineInts {
  /** Largest `u32`; also the seed of the minimum-distance fold. */
  const U32_MAX: int := 0xFFFF_FFFF

  type u16 = x: int | 0 <= x < 0x1_0000
  type u32 = x: int | 0 <= x <= 0xFFFF_FFFF
  type i32 = x: int | -0x8000_0000 <= x <= 0x7FFF_FFFF
}

/** Rust's `Option`. */
module Optional {
  datatype Option<+T> = None | Some(value: T)
}
