/** What several components share. */
module Basics {
  datatype Option<T> = None | Some(value: T)

  /** The number of values of a 32-bit word. */
  const TWO_32: nat := 0x1_0000_0000

  /** A device address. */
  type Mac = nat

  const BROADCAST: Mac := 0xffff_ffff_ffff

  /** The slots of the table of paired devices. */
  const MAX_SAVED_PEERS: nat := 3
}
