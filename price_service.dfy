/** The service's store and its two writing operations, `update_price` and
    `init_price_token`, and its one reading operation, `get_price`. The
    network answers they consume are parameters. */
module PriceService {
  import opened Optional
  import opened TextCase
  import opened PriceTable
  import NearestLookup
  import opened LatestBlock
  import opened Backfill

  const HTTP_OK: int := 200
  const HTTP_BAD_REQUEST: int := 400
  const HTTP_NOT_FOUND: int := 404
  const HTTP_SERVER_ERROR: int := 500

  /** The provider's `simple/price` answer: provider id, then quote currency,
      then price. */
  type PriceResponse = map<string, map<string, Price>>

  /** How `update_price` answers: the stored token and its row count (200),
      an unknown provider id (400), or a failed request or lookup (500). */
  datatype UpdateResult = Updated(token: string, count: nat) | InvalidTokenId | UpdateFailed

  function UpdateStatus(r: UpdateResult): (code: int)
    ensures code == HTTP_OK <==> r.Updated?
    ensures code == HTTP_BAD_REQUEST <==> r.InvalidTokenId?
    ensures code == HTTP_SERVER_ERROR <==> r.UpdateFailed?
  {
    match r
    case Updated(_, _) => HTTP_OK
    case InvalidTokenId => HTTP_BAD_REQUEST
    case UpdateFailed => HTTP_SERVER_ERROR
  }

  function LookupStatus(r: Option<NearestLookup.Row>): (code: int)
    ensures code == HTTP_OK <==> r.Some?
    ensures code == HTTP_NOT_FOUND <==> r.None?
  {
    if r.Some? then HTTP_OK else HTTP_NOT_FOUND
  }

  /** The live half of `update_price`, after the backfill attempt: `prices`
      is `None` when the price request failed, `chain` is the latest-block
      document as in `LatestNetworkBlock`. */
  function LiveUpdate(rows: Rows, tokenName: string, tokenFrom: string, tokenTo: string,
                      prices: Option<PriceResponse>, chain: Option<Json>): (UpdateResult, Rows)
  {
    match prices
    case None => (UpdateFailed, rows)
    case Some(response) =>
      var id := Lower(tokenFrom);
      if id !in response then (InvalidTokenId, rows)
      else if Lower(tokenTo) !in response[id] then (UpdateFailed, rows)
      else
        match LatestNetworkBlock(chain)
        case NoBlock => (UpdateFailed, rows)
        case Block(height) =>
          var token := Lower(tokenName);
          var rows' := rows[Key(height, token) := response[id][Lower(tokenTo)]];
          (Updated(token, TokenCount(rows', token)), rows')
  }

  /** A 400 answer comes exactly when the price answer lacks the provider id,
      and only a 200 answer writes. */
  lemma LiveUpdateRejectsUnknownId(rows: Rows, tokenName: string, tokenFrom: string, tokenTo: string,
                                   prices: Option<PriceResponse>, chain: Option<Json>)
    ensures var (r, rows') := LiveUpdate(rows, tokenName, tokenFrom, tokenTo, prices, chain);
            (r == InvalidTokenId <==> prices.Some? && Lower(tokenFrom) !in prices.value) &&
            (!r.Updated? ==> rows' == rows)
  {
  }

  /** A 500 answer comes exactly when the price request fails, the answer
      has the provider id but no price in the quote currency, or no block
      height can be read from the chain node's answer. */
  lemma LiveUpdateFailure(rows: Rows, tokenName: string, tokenFrom: string, tokenTo: string,
                          prices: Option<PriceResponse>, chain: Option<Json>)
    ensures var (r, rows') := LiveUpdate(rows, tokenName, tokenFrom, tokenTo, prices, chain);
            UpdateStatus(r) == HTTP_SERVER_ERROR <==>
              || prices.None?
              || (Lower(tokenFrom) in prices.value && Lower(tokenTo) !in prices.value[Lower(tokenFrom)])
              || (Lower(tokenFrom) in prices.value && LatestNetworkBlock(chain).NoBlock?)
  {
  }

  /** A 200 answer comes exactly when both requests succeed and the price
      exists; then the row at the latest height holds the fetched price, the
      query at that height answers it, and the reported count is the token's
      row count after the write, one more than before unless the key existed. */
  lemma LiveUpdateStoresPrice(rows: Rows, tokenName: string, tokenFrom: string, tokenTo: string,
                              prices: Option<PriceResponse>, chain: Option<Json>)
    ensures var (r, rows') := LiveUpdate(rows, tokenName, tokenFrom, tokenTo, prices, chain);
            r.Updated? <==> (&& prices.Some? && Lower(tokenFrom) in prices.value
                             && Lower(tokenTo) in prices.value[Lower(tokenFrom)]
                             && LatestNetworkBlock(chain).Block?)
    ensures var (r, rows') := LiveUpdate(rows, tokenName, tokenFrom, tokenTo, prices, chain);
            r.Updated? ==>
              var height, token := LatestNetworkBlock(chain).height, Lower(tokenName);
              var price := prices.value[Lower(tokenFrom)][Lower(tokenTo)];
              && rows' == rows[Key(height, token) := price]
              && NearestLookup.GetPrice(rows', tokenName, height) == Some(NearestLookup.Row(height, price))
              && r.token == token
              && r.count == TokenCount(rows', token)
              && r.count == TokenCount(rows, token) + (if Key(height, token) in rows then 0 else 1)
  {
    var (r, rows') := LiveUpdate(rows, tokenName, tokenFrom, tokenTo, prices, chain);
    if r.Updated? {
      var height, token := LatestNetworkBlock(chain).height, Lower(tokenName);
      var price := prices.value[Lower(tokenFrom)][Lower(tokenTo)];
      UpsertCount(rows, Key(height, token), price, token);
      NearestLookup.GetPriceAfterUpsert(rows, tokenName, height, price);
    }
  }

  class PriceStore {
    /** The rows of the `prices` table. */
    var rows: Rows

    /** Every write lower-cases the token, so no stored token has an upper-case
        letter. */
    ghost predicate Valid()
      reads this
    {
      forall k :: k in rows ==> IsLower(k.token)
    }

    /** In a valid table, every row is what the query for its own token at
        its own height answers. */
    lemma StoredRowsAreFound(k: Key)
      requires Valid() && k in rows
      ensures NearestLookup.GetPrice(rows, k.token, k.height) == Some(NearestLookup.Row(k.height, rows[k]))
    {
      NearestLookup.GetPriceFindsStoredRow(rows, k);
    }

    /** `check_create_table`: an empty table. Running it again on an existing
        table changes nothing, so only the first creation is modelled. */
    constructor ()
      ensures Valid() && rows == map[]
    {
      rows := map[];
    }

    /** `INSERT OR REPLACE INTO prices`: the key now holds the new price,
        every other row is as it was. */
    method Upsert(height: int, token: string, price: Price)
      modifies this
      ensures rows == old(rows)[Key(height, token) := price]
      ensures forall k :: k != Key(height, token) ==> (k in rows <==> k in old(rows)) && (k in rows ==> rows[k] == old(rows)[k])
      ensures TokenCount(rows, token) == old(TokenCount(rows, token)) + (if Key(height, token) in old(rows) then 0 else 1)
      ensures old(Valid()) && IsLower(token) ==> Valid()
    {
      UpsertCount(rows, Key(height, token), price, token);
      rows := rows[Key(height, token) := price];
    }

    /** `SELECT count(*) FROM prices WHERE token = ?`. */
    method Count(token: string) returns (n: nat)
      ensures n == TokenCount(rows, token)
      ensures n > 0 <==> exists k :: k in rows && k.token == token
    {
      CountPositive(rows, token);
      n := |set k | k in rows.Keys && k.token == token|;
    }

    /** `get_price`: the row at the greatest height at or below the query, for
        the lower-cased token. */
    method GetPrice(token: string, query: int) returns (r: Option<NearestLookup.Row>)
      ensures r == NearestLookup.GetPrice(rows, token, query)
      ensures r.Some? ==> r.value.height <= query && Key(r.value.height, Lower(token)) in rows
    {
      r := NearestLookup.GetPrice(rows, token, query);
    }

    /** `init_price_token`: the guard, then the loop over the history that
        converts each timestamp, drops heights below 1 and upserts the rest. */
    method InitPriceToken(tokenName: string, feed: Feed) returns (outcome: InitOutcome)
      modifies this
      ensures old(Valid()) ==> Valid()
      ensures (outcome, rows) == Init(old(rows), tokenName, LatestNetworkBlock(feed.chain), feed.history, feed.endEpoch)
    {
      var token := Lower(tokenName);
      LowerCharacterisation(tokenName);
      var count := Count(token);
      if count > 0 {
        return AlreadyInitialized(count);
      }
      var block := LatestNetworkBlock(feed.chain);
      if block.NoBlock? || feed.history.None? {
        return InitFailed;
      }
      var points := feed.history.value;
      ghost var samples := ToSamples(block.height, feed.endEpoch, points);
      for i := 0 to |points|
        invariant old(Valid()) ==> Valid()
        invariant rows == Stored(old(rows), token, samples[..i])
      {
        assert samples[..i + 1][..i] == samples[..i];
        var height := TimeAlignment.HeightForTimestamp(block.height, feed.endEpoch, points[i].timestampMs);
        if height < 1 {
          continue;
        }
        Upsert(height, token, points[i].price);
      }
      assert samples[..|points|] == samples;
      outcome := Initialized;
    }

    /** `update_price`: a backfill attempt whose failure is ignored, then the
        live price written at the latest height. */
    method UpdatePrice(tokenName: string, tokenFrom: string, tokenTo: string, feed: Feed,
                       prices: Option<PriceResponse>, chain: Option<Json>) returns (r: UpdateResult)
      modifies this
      ensures old(Valid()) ==> Valid()
      ensures (r, rows) == LiveUpdate(Init(old(rows), tokenName, LatestNetworkBlock(feed.chain), feed.history, feed.endEpoch).1, tokenName, tokenFrom, tokenTo, prices, chain)
    {
      var _ := InitPriceToken(tokenName, feed);
      if prices.None? {
        return UpdateFailed;
      }
      var response := prices.value;
      var id := Lower(tokenFrom);
      if id !in response {
        return InvalidTokenId;
      }
      if Lower(tokenTo) !in response[id] {
        return UpdateFailed;
      }
      var block := LatestNetworkBlock(chain);
      if block.NoBlock? {
        return UpdateFailed;
      }
      var token := Lower(tokenName);
      LowerCharacterisation(tokenName);
      Upsert(block.height, token, response[id][Lower(tokenTo)]);
      var count := Count(token);
      r := Updated(token, count);
    }
  }
}
