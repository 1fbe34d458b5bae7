/** The element slots of a block of ConcurrentQueue. */
module Slots {
  import opened Options
  import opened Words

  type Item = nat

  function EmptySlots(): (r: seq<Option<Item>>)
    ensures |r| == BLOCK_SIZE && forall k :: 0 <= k < BLOCK_SIZE ==> r[k] == None
  {
    seq(BLOCK_SIZE, _ => None)
  }
}
