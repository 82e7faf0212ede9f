/** Conversion of a provider timestamp (milliseconds) to a block height, using
    the latest block height and the backfill's end time (seconds) as anchor
    and a fixed block time. */
module TimeAlignment {

  /** Seconds between two blocks, as the service assumes. */
  const BLOCK_TIME_SECONDS: int := 5

  /** Python's `int()` on a float: truncation toward zero. */
  function Trunc(x: real): (r: int)
    ensures 0.0 <= x ==> r as real <= x < r as real + 1.0
    ensures x < 0.0 ==> r as real - 1.0 < x <= r as real
  {
    if x >= 0.0 then x.Floor else -((-x).Floor)
  }

  /** `(end_date_epoch - price_timestamp / 1000) / BLOCK_TIME_SECONDS`. */
  function BlocksDiff(endEpoch: int, timestampMs: int): real {
    (endEpoch as real - timestampMs as real / 1000.0) / BLOCK_TIME_SECONDS as real
  }

  /** `int(latest_block_height - blocks_diff)`. */
  function HeightForTimestamp(latest: int, endEpoch: int, timestampMs: int): int {
    Trunc(latest as real - BlocksDiff(endEpoch, timestampMs))
  }

  /** Truncation of an integral value is that value. */
  lemma TruncOfInt(n: int)
    ensures Trunc(n as real) == n
  {
  }

  /** Truncation never decreases when its argument grows. */
  lemma TruncMonotone(x: real, y: real)
    requires x <= y
    ensures Trunc(x) <= Trunc(y)
  {
  }

  /** A timestamp exactly `k` block times before the anchor converts to the
      height `k` blocks below the latest; `k` may be negative (a future time). */
  lemma HeightAtBlockBoundary(latest: int, endEpoch: int, k: int)
    ensures HeightForTimestamp(latest, endEpoch, endEpoch * 1000 - k * 5000) == latest - k
  {
  }

  /** The anchor time itself converts to the latest height, and a point 50
      seconds earlier to ten blocks below it. */
  lemma ConversionExamples(latest: int, endEpoch: int)
    ensures HeightForTimestamp(latest, endEpoch, endEpoch * 1000) == latest
    ensures HeightForTimestamp(latest, endEpoch, endEpoch * 1000 - 50000) == latest - 10
  {
  }

  /** A later timestamp never converts to a lower height. */
  lemma HeightMonotone(latest: int, endEpoch: int, ts1: int, ts2: int)
    requires ts1 <= ts2
    ensures HeightForTimestamp(latest, endEpoch, ts1) <= HeightForTimestamp(latest, endEpoch, ts2)
  {
  }

  /** A timestamp at or before the anchor time never converts above the latest
      height. */
  lemma PastNeverAboveLatest(latest: int, endEpoch: int, timestampMs: int)
    requires timestampMs <= endEpoch * 1000
    ensures HeightForTimestamp(latest, endEpoch, timestampMs) <= latest
  {
  }

  /** Truncation and floor keep or drop the same values under the `< 1` rule,
      and agree on every value kept. */
  lemma TruncAgreesWithFloorWhenKept(x: real)
    ensures Trunc(x) >= 1 <==> x.Floor >= 1
    ensures Trunc(x) >= 1 ==> Trunc(x) == x.Floor
  {
  }
}
