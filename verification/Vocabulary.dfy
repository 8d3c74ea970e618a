/** What both models of the registry speak of. */
module Vocabulary {

  type Name = string

  /** `usize::MAX`: the lease count of an entry that must never be handed out again. */
  const CLOSED: nat := 0xFFFF_FFFF_FFFF_FFFF

  /** Bound on the retries of `acquire` and of the capacity loop. */
  const MAX_ATTEMPTS: nat := 16

  /** The most permits a semaphore accepts, `usize::MAX >> 3`. */
  const MAX_PERMITS: nat := 0x1FFF_FFFF_FFFF_FFFF

  /** The once-cell of an entry: empty, holding open pools, or holding pools that were closed. */
  datatype Pools = Unopened | Opened | Shut
}
