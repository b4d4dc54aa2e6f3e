/** Integer widths and constants of the 32-bit configuration (RT_ALIGN_SIZE 4). */
module RtDef {
  const WORD_RANGE: int := 0x1_0000_0000
  const RT_ALIGN_SIZE: int := 4
  const RT_UINT16_MAX: int := 0xffff

  /** rt_size_t on a 32-bit target. */
  type USize = n: int | 0 <= n < WORD_RANGE witness 0

  /** Unsigned 32-bit arithmetic wraps. */
  function Wrap(n: int): USize {
    n % WORD_RANGE
  }

  /** RT_ALIGN(size, RT_ALIGN_SIZE): the addition wraps before the mask is applied. */
  function AlignUp(size: USize): USize {
    Wrap(size + (RT_ALIGN_SIZE - 1)) / RT_ALIGN_SIZE * RT_ALIGN_SIZE
  }

  function AlignDown(size: USize): USize {
    size / RT_ALIGN_SIZE * RT_ALIGN_SIZE
  }

  /** RT_ALIGN rounds up to the next multiple of four, except in the last three values of the
      type, where the sum wraps and the result is zero. */
  lemma AlignUpMeaning(size: USize)
    ensures AlignUp(size) % RT_ALIGN_SIZE == 0
    ensures size <= WORD_RANGE - RT_ALIGN_SIZE <==> size <= AlignUp(size)
    ensures size <= WORD_RANGE - RT_ALIGN_SIZE ==> AlignUp(size) < size + RT_ALIGN_SIZE
    ensures size > WORD_RANGE - RT_ALIGN_SIZE ==> AlignUp(size) == 0
  {
  }

  /** An optional pointer, as an offset from the start of the region it points into. */
  datatype Ptr = Null | At(off: int)

  function Max(a: int, b: int): int {
    if a < b then b else a
  }

  function Min(a: int, b: int): int {
    if a < b then a else b
  }
}
