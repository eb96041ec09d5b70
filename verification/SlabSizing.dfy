/** How many chunks a bucket maps at a time. */
module SlabSizing {
  import opened RingLedger

  const CHUNKS_PER_ALLOC: nat := 1024
  const MIN_SLAB_CHUNKS: nat := 8
  const MAX_SLAB_BYTES: nat := 4 * 1024 * 1024
  const MIN_SLAB_BYTES: nat := MIN_SLAB_CHUNKS * CHUNK

  function Min(a: nat, b: nat): (r: nat)
    ensures r <= a && r <= b && (r == a || r == b)
  {
    if a <= b then a else b
  }

  function Max(a: nat, b: nat): (r: nat)
    ensures r >= a && r >= b && (r == a || r == b)
  {
    if a <= b then b else a
  }

  /**
   A sixteenth of the bucket in whole chunks, between 8 and 1024, and no more than the ring.
   The 4 MB bound never bites: 1024 chunks are 1 MB.
   */
  function CalcMaxSlabChunks(maxBucketBytes: nat, maxChunks: nat): (r: nat)
    ensures 1 <= r <= CHUNKS_PER_ALLOC
    ensures maxChunks > 0 ==> r == Min(maxChunks, Max(8, Min(1024, maxBucketBytes / 16384)))
  {
    var target := maxBucketBytes / 16;
    var target := if target < MIN_SLAB_BYTES then MIN_SLAB_BYTES else target;
    var target := if target > MAX_SLAB_BYTES then MAX_SLAB_BYTES else target;
    var ch := target / CHUNK;
    var ch := if ch < MIN_SLAB_CHUNKS then MIN_SLAB_CHUNKS else ch;
    var ch := if ch > CHUNKS_PER_ALLOC then CHUNKS_PER_ALLOC else ch;
    if maxChunks > 0 && ch > maxChunks then maxChunks else ch
  }

  /** The first slab: everything for a small ring or a small slab, else a quarter slab; never empty. */
  function CalcInitialAllocChunks(maxSlabChunks: nat, maxChunks: nat): (r: nat)
    ensures maxSlabChunks >= 1 && maxChunks >= 1 ==> 1 <= r
    ensures maxChunks > 32 ==> r == if maxSlabChunks <= 32 then maxSlabChunks else maxSlabChunks / 4
    ensures maxChunks <= 32 ==> r == maxChunks
  {
    if maxChunks <= 32 then maxChunks
    else if maxSlabChunks <= 32 then maxSlabChunks
    else
      var initial := maxSlabChunks / 4;
      if initial < MIN_SLAB_CHUNKS then MIN_SLAB_CHUNKS else initial
  }
}
