/** The maximum heap size the JVM trait derives from a container's memory limit. */
module JvmHeap {
  import opened Decimal

  const MEGA := 1_000_000
  const MIB := 0x10_0000
  const LOW_MEMORY := 300 * MEGA

  /** `Quantity.ScaledValue(resource.Mega)`: megabytes, rounded up. */
  function Megabytes(bytes: nat): nat {
    (bytes + MEGA - 1) / MEGA
  }

  function Percentage(bytes: nat): nat {
    if LOW_MEMORY > bytes then 25 else 50
  }

  /** The number behind `-Xmx`. */
  function HeapSize(bytes: nat): nat {
    Megabytes(bytes) * Percentage(bytes) / 100
  }

  /**
   The JVM reads the value as MiB. It is still strictly below the limit, for every positive limit, and it is zero
   exactly up to three megabytes. The 64-bit product it is computed from does not overflow.
   */
  lemma HeapBelowLimit(bytes: nat)
    requires 0 < bytes
    ensures HeapSize(bytes) * MIB < bytes
    ensures HeapSize(bytes) == 0 <==> bytes <= 3 * MEGA
    ensures bytes <= MAX_INT64 ==> Megabytes(bytes) * Percentage(bytes) <= MAX_INT64
  {
    var m := Megabytes(bytes);
    assert m * MEGA < bytes + MEGA;
    if bytes < LOW_MEMORY {
      assert HeapSize(bytes) == m * 25 / 100;
    } else {
      assert HeapSize(bytes) == m * 50 / 100;
    }
  }

  /** More memory never means less heap, across the low-memory threshold too. */
  lemma HeapIsMonotone(a: nat, b: nat)
    requires a <= b
    ensures HeapSize(a) <= HeapSize(b)
  {
    assert Megabytes(a) <= Megabytes(b);
    assert HeapSize(a) == if a < LOW_MEMORY then Megabytes(a) * 25 / 100 else Megabytes(a) * 50 / 100;
    assert HeapSize(b) == if b < LOW_MEMORY then Megabytes(b) * 25 / 100 else Megabytes(b) * 50 / 100;
  }

  /** The share: a quarter of the megabytes below 300M, half of them from there on, rounded down. */
  lemma HeapIsAShare(bytes: nat)
    ensures var m, heap := Megabytes(bytes), HeapSize(bytes);
            && (m - 1) * 1_000_000 < bytes <= m * 1_000_000
            && (bytes < 300_000_000 ==> 4 * heap <= m < 4 * (heap + 1))
            && (bytes >= 300_000_000 ==> 2 * heap <= m < 2 * (heap + 1))
  {
    var m := Megabytes(bytes);
    assert HeapSize(bytes) == if bytes < LOW_MEMORY then m * 25 / 100 else m * 50 / 100;
  }
}
