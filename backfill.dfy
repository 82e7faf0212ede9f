/** The one-shot history load of `init_price_token`, as a function of the
    table before it and of what the chain node and the price provider answer. */
module Backfill {
  import opened Optional
  import opened TextCase
  import opened PriceTable
  import opened TimeAlignment
  import opened LatestBlock

  /** One historical sample of the provider: `[timestamp_ms, price]`. */
  datatype Point = Point(timestampMs: int, price: Price)

  /** The collaborators' answers one backfill consumes: the latest-block
      document (`None` when the request failed), the historical series
      (`None` when the request failed or the answer had no `prices`), and
      `end_date_epoch`, the wall-clock second the window ends at. */
  datatype Feed = Feed(chain: Option<Json>, history: Option<seq<Point>>, endEpoch: int)

  /** How `init_price_token` ends: at the guard, after loading, or by raising. */
  datatype InitOutcome = AlreadyInitialized(count: nat) | Initialized | InitFailed

  function PointHeight(latest: int, endEpoch: int, p: Point): int {
    HeightForTimestamp(latest, endEpoch, p.timestampMs)
  }

  /** A point whose converted height is not dropped by the `< 1` rule. */
  predicate Kept(latest: int, endEpoch: int, p: Point) {
    PointHeight(latest, endEpoch, p) >= 1
  }

  /** A historical point after conversion: its block height and its price. */
  datatype Sample = Sample(height: int, price: Price)

  /** The history converted point by point, in its own order. */
  function ToSamples(latest: int, endEpoch: int, points: seq<Point>): seq<Sample> {
    seq(|points|, i requires 0 <= i < |points| => Sample(PointHeight(latest, endEpoch, points[i]), points[i].price))
  }

  /** A history in ascending time order converts to heights that never go
      down. */
  lemma SamplesAscend(latest: int, endEpoch: int, points: seq<Point>, i: int, j: int)
    requires forall a, b :: 0 <= a < b < |points| ==> points[a].timestampMs <= points[b].timestampMs
    requires 0 <= i <= j < |points|
    ensures ToSamples(latest, endEpoch, points)[i].height <= ToSamples(latest, endEpoch, points)[j].height
  {
  }

  /** A history that ends at or before the anchor time converts to heights
      of at most the latest one. */
  lemma SamplesNeverAboveLatest(latest: int, endEpoch: int, points: seq<Point>)
    requires forall j :: 0 <= j < |points| ==> points[j].timestampMs <= endEpoch * 1000
    ensures forall j :: 0 <= j < |points| ==> ToSamples(latest, endEpoch, points)[j].height <= latest
  {
  }

  /** One turn of the loop: drop a sample below height 1, or `INSERT OR
      REPLACE` it. */
  function StoreOne(rows: Rows, token: string, s: Sample): Rows {
    if s.height < 1 then rows else rows[Key(s.height, token) := s.price]
  }

  /** The table after the loop has run over `samples` in order. */
  function Stored(rows: Rows, token: string, samples: seq<Sample>): Rows
    decreases |samples|
  {
    if samples == [] then rows
    else StoreOne(Stored(rows, token, samples[..|samples| - 1]), token, samples[|samples| - 1])
  }

  /** A row that no sample of height at least 1 lands on is left as it was:
      rows of other tokens, rows below height 1, and rows the history does not
      reach. */
  lemma {:induction false} StoredUntouched(rows: Rows, token: string, samples: seq<Sample>, k: Key)
    requires k.token != token || forall j :: 0 <= j < |samples| && samples[j].height >= 1 ==> samples[j].height != k.height
    ensures var after := Stored(rows, token, samples);
            (k in after <==> k in rows) && (k in rows ==> after[k] == rows[k])
    decreases |samples|
  {
    if samples != [] {
      StoredUntouched(rows, token, samples[..|samples| - 1], k);
    }
  }

  /** Every row the backfill adds carries the token and a height of at least
      1; rows of other tokens and rows below height 1 stay as they were. */
  lemma {:induction false} StoredNeverBelowOne(rows: Rows, token: string, samples: seq<Sample>)
    ensures forall k :: k in Stored(rows, token, samples) && k !in rows ==> k.token == token && k.height >= 1
    ensures forall k: Key :: k.token != token || k.height < 1 ==>
              (k in Stored(rows, token, samples) <==> k in rows) &&
              (k in rows ==> Stored(rows, token, samples)[k] == rows[k])
  {
    forall k: Key | k.token != token || k.height < 1
      ensures (k in Stored(rows, token, samples) <==> k in rows)
      ensures k in rows ==> Stored(rows, token, samples)[k] == rows[k]
    {
      StoredUntouched(rows, token, samples, k);
    }
  }

  /** Every sample of height at least 1 leaves a row at its height. */
  lemma {:induction false} StoredKeepsKey(rows: Rows, token: string, samples: seq<Sample>, j: int)
    requires 0 <= j < |samples| && samples[j].height >= 1
    ensures Key(samples[j].height, token) in Stored(rows, token, samples)
    decreases |samples|
  {
    if j < |samples| - 1 {
      var prefix := samples[..|samples| - 1];
      assert prefix[j] == samples[j];
      StoredKeepsKey(rows, token, prefix, j);
    }
  }

  /** A sample is stored at its height with its price, unless a later sample
      lands on the same height: then that later price wins. */
  lemma {:induction false} StoredLastWriteWins(rows: Rows, token: string, samples: seq<Sample>, i: int)
    requires 0 <= i < |samples| && samples[i].height >= 1
    requires forall j :: i < j < |samples| ==> samples[j].height != samples[i].height
    ensures Key(samples[i].height, token) in Stored(rows, token, samples)
    ensures Stored(rows, token, samples)[Key(samples[i].height, token)] == samples[i].price
    decreases |samples|
  {
    if i < |samples| - 1 {
      var prefix := samples[..|samples| - 1];
      assert prefix[i] == samples[i];
      StoredLastWriteWins(rows, token, prefix, i);
    }
  }

  /** With the chain at height 0, no point at or before the anchor time is
      stored. */
  lemma BackfillNothingAtHeightZero(rows: Rows, token: string, endEpoch: int, points: seq<Point>)
    requires forall j :: 0 <= j < |points| ==> points[j].timestampMs <= endEpoch * 1000
    ensures Stored(rows, token, ToSamples(0, endEpoch, points)) == rows
  {
    var samples := ToSamples(0, endEpoch, points);
    var after := Stored(rows, token, samples);
    SamplesNeverAboveLatest(0, endEpoch, points);
    forall k ensures (k in after <==> k in rows) && (k in rows ==> after[k] == rows[k]) {
      StoredUntouched(rows, token, samples, k);
    }
  }

  /** `init_price_token`, given the normalised latest-block answer `block`
      and the history: nothing happens when the lower-cased token already has
      rows; `{}` for the block (a `KeyError` on its `block` key) or a failed
      history request raises before any write; otherwise the history is
      loaded. */
  function Init(rows: Rows, tokenName: string, block: BlockInfo, history: Option<seq<Point>>, endEpoch: int): (InitOutcome, Rows) {
    var token := Lower(tokenName);
    var count := TokenCount(rows, token);
    if count > 0 then (AlreadyInitialized(count), rows)
    else
      match block
      case NoBlock => (InitFailed, rows)
      case Block(latest) =>
        match history
        case None => (InitFailed, rows)
        case Some(points) => (Initialized, Stored(rows, token, ToSamples(latest, endEpoch, points)))
  }

  /** A token that has rows is never loaded again, and a load that fails
      writes nothing. */
  lemma InitGuard(rows: Rows, tokenName: string, block: BlockInfo, history: Option<seq<Point>>, endEpoch: int)
    ensures TokenCount(rows, Lower(tokenName)) > 0 ==>
              Init(rows, tokenName, block, history, endEpoch) == (AlreadyInitialized(TokenCount(rows, Lower(tokenName))), rows)
    ensures Init(rows, tokenName, block, history, endEpoch).0 != Initialized ==> Init(rows, tokenName, block, history, endEpoch).1 == rows
  {
  }

  /** The load writes only rows of the lower-cased token at heights of at
      least 1, and the rows of every other token stay as they were. */
  lemma InitFrame(rows: Rows, tokenName: string, block: BlockInfo, history: Option<seq<Point>>, endEpoch: int, k: Key)
    ensures var after := Init(rows, tokenName, block, history, endEpoch).1;
            k in after && k !in rows ==> k.token == Lower(tokenName) && k.height >= 1
    ensures var after := Init(rows, tokenName, block, history, endEpoch).1;
            k.token != Lower(tokenName) ==> (k in after <==> k in rows) && (k in rows ==> after[k] == rows[k])
  {
    if Init(rows, tokenName, block, history, endEpoch).0 == Initialized {
      StoredNeverBelowOne(rows, Lower(tokenName), ToSamples(block.height, endEpoch, history.value));
    }
  }

  /** The load happens at most once: a first call on a token without rows
      loads the history, and when it keeps point `j`, a second call leaves the
      table alone whatever its collaborators answer. */
  lemma InitAtMostOnce(rows: Rows, tokenName: string, block: BlockInfo, history: Option<seq<Point>>, endEpoch: int, j: int,
                       block2: BlockInfo, history2: Option<seq<Point>>, endEpoch2: int)
    requires TokenCount(rows, Lower(tokenName)) == 0 && block.Block? && history.Some?
    requires 0 <= j < |history.value| && Kept(block.height, endEpoch, history.value[j])
    ensures Init(rows, tokenName, block, history, endEpoch).0 == Initialized
    ensures var after := Init(rows, tokenName, block, history, endEpoch).1;
            Init(after, tokenName, block2, history2, endEpoch2) == (AlreadyInitialized(TokenCount(after, Lower(tokenName))), after)
  {
    var after := Init(rows, tokenName, block, history, endEpoch).1;
    StoredKeepsKey(rows, Lower(tokenName), ToSamples(block.height, endEpoch, history.value), j);
    CountPositive(after, Lower(tokenName));
  }

  /** A load that keeps no point (an empty history, or one whose every point
      converts below height 1) succeeds but writes nothing, so the token still
      has no rows and the next call loads the history again. */
  lemma InitRetriesWhenNothingKept(rows: Rows, tokenName: string, block: BlockInfo, history: Option<seq<Point>>, endEpoch: int,
                                   block2: BlockInfo, history2: Option<seq<Point>>, endEpoch2: int)
    requires TokenCount(rows, Lower(tokenName)) == 0 && block.Block? && history.Some?
    requires forall j :: 0 <= j < |history.value| ==> !Kept(block.height, endEpoch, history.value[j])
    requires block2.Block? && history2.Some?
    ensures Init(rows, tokenName, block, history, endEpoch) == (Initialized, rows)
    ensures Init(rows, tokenName, block2, history2, endEpoch2).0 == Initialized
  {
    var samples := ToSamples(block.height, endEpoch, history.value);
    var after := Stored(rows, Lower(tokenName), samples);
    assert forall j :: 0 <= j < |samples| ==> samples[j].height < 1 by {
      forall j | 0 <= j < |samples| ensures samples[j].height < 1 {
        assert !Kept(block.height, endEpoch, history.value[j]);
      }
    }
    forall k ensures (k in after <==> k in rows) && (k in rows ==> after[k] == rows[k]) {
      StoredUntouched(rows, Lower(tokenName), samples, k);
    }
    assert after == rows;
  }
}
