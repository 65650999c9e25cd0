/** Layout and limits of the kernel heap on i386. */
module HeapLayout {

  // mem_chunk_t: all.next, all.prev, used, then free.next (which overlays the
  // data pointer) and free.prev.
  const USED: int := 8
  const FREE: int := 12
  const HEADER_SIZE: int := 12
  const CHUNK_SIZE: int := 20

  const NUM_SIZES: int := 32
  const ALIGN: int := 4
  const MIN_SIZE: int := 8
}
