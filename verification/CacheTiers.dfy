/**
 The two tiers behind the cache manager: a memory tier in every process and, with Redis, one shared
 tier. Nothing tells other processes' memory tiers about a write or a delete.
 */
module CacheTiers {

  type Proc = nat

  datatype Tier = L1(proc: Proc) | L2

  /** The process a call runs in, and whether the shared tier answers it. */
  datatype Client = Client(proc: Proc, up: bool)
}
