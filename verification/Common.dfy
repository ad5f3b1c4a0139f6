/** Constants and small datatypes that several modules share. */
module Common {
  const UINT32_MAX: nat := 0xffff_ffff

  /** Number of values of a 32-bit word. */
  const WORD: nat := 0x1_0000_0000

  datatype Option<T> = None | Some(value: T)

  /** Who is inside a spinlock, a mutex or a gate. */
  datatype Lock = Open | Held(owner: nat)
}
