/**
 The dispatch grid: how many thread groups of the kernel's declared size
 are launched along one axis so that every pixel of the destination is
 covered.
 */
module Grid {
  import opened Int32

  /** Integer ceiling division `(extent + g - 1) / g`. `CeilToInt` is taken
      to leave the integer quotient as it is; its float conversion is exact
      only for quotients below 2^24. */
  function GroupCount(extent: Extent, groupSize: nat): (n: nat)
    requires groupSize >= 1
    ensures n * groupSize >= extent
    ensures (n - 1) * groupSize < extent
  {
    var n := (extent + groupSize - 1) / groupSize;
    var rem := (extent + groupSize - 1) % groupSize;
    assert n * groupSize + rem == extent + groupSize - 1;
    n
  }

  /** No smaller number of groups covers the extent: the grid is the ceiling. */
  lemma GroupCountIsLeast(extent: Extent, groupSize: nat, m: nat)
    requires groupSize >= 1
    requires m * groupSize >= extent
    ensures m >= GroupCount(extent, groupSize)
  {
    var n := GroupCount(extent, groupSize);
    if m < n {
      MulMonotone(m, n - 1, groupSize);
    }
  }

  lemma MulMonotone(a: int, b: int, g: nat)
    requires a <= b
    ensures a * g <= b * g
  {
    assert b * g - a * g == (b - a) * g;
  }

  /** An extent that is a whole number of groups gets exactly that many. */
  lemma GroupCountExact(q: nat, groupSize: nat)
    requires groupSize >= 1
    requires q * groupSize <= MaxValue
    ensures GroupCount(q * groupSize, groupSize) == q
  {
    var n := GroupCount(q * groupSize, groupSize);
    GroupCountIsLeast(q * groupSize, groupSize, q);
    if n < q {
      MulMonotone(n, q - 1, groupSize);
    }
  }

  /** An empty extent launches no groups; a one-pixel extent launches one. */
  lemma GroupCountSmall(groupSize: nat)
    requires groupSize >= 1
    ensures GroupCount(0, groupSize) == 0
    ensures GroupCount(1, groupSize) == 1
  {
    GroupCountExact(0, groupSize);
  }
}
