/** A buffer cut into equal cells, each a link word followed by its payload. */
module Cells {

  const LINK: nat := 4   // sizeof of one pointer

  /** RT_ALIGN to RT_ALIGN_SIZE, for sizes that do not wrap. */
  function Rounded(n: nat): (r: nat)
    ensures n <= r < n + 4 && r % 4 == 0
  {
    (n + 3) / 4 * 4
  }

  /** How many cells of `size` bytes of payload fit. */
  function Count(size: nat, poolSize: nat): nat { poolSize / (size + LINK) }

  function CellAt(base: nat, size: nat, i: nat): int { base + i * (size + LINK) }

  lemma MulMonotone(a: nat, b: nat, w: nat)
    requires a <= b
    ensures a * w <= b * w
  {
  }

  /** Every cell lies inside the buffer, and a later one starts where an earlier one has ended. */
  lemma CellsApart(base: nat, size: nat, poolSize: nat, i: nat, j: nat)
    requires i < Count(size, poolSize) && j < Count(size, poolSize)
    ensures base <= CellAt(base, size, j) && CellAt(base, size, j) + LINK + size <= base + poolSize
    ensures i < j ==> CellAt(base, size, i) + LINK + size <= CellAt(base, size, j)
  {
    var w, q := size + LINK, Count(size, poolSize);
    if i < j { MulMonotone(i + 1, j, w); }
    MulMonotone(j + 1, q, w);
    assert (i + 1) * w == i * w + w && (j + 1) * w == j * w + w;
    assert q * w <= poolSize;
  }

  /** There are as many cells as fit. */
  lemma CellsFull(size: nat, poolSize: nat)
    ensures Count(size, poolSize) * (size + LINK) <= poolSize < Count(size, poolSize) * (size + LINK) + size + LINK
  {
    var w := size + LINK;
    assert poolSize == poolSize / w * w + poolSize % w;
  }

  lemma CellsDiffer(base: nat, size: nat, i: nat, j: nat)
    requires i < j
    ensures CellAt(base, size, i) < CellAt(base, size, j)
  {
    MulMonotone(i + 1, j, size + LINK);
    assert (i + 1) * (size + LINK) == i * (size + LINK) + size + LINK;
  }
}
