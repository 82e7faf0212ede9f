/** The `/gt/<token>/<block_height>` query: among the rows of the lower-cased
    token whose height does not exceed the query, the one with the smallest
    `ABS(block_height - query)`; not found when there is none. */
module NearestLookup {
  import opened Optional
  import opened TextCase
  import opened PriceTable

  /** The answer of the query: the row's block height and its price. */
  datatype Row = Row(height: int, price: Price)

  /** `ABS(block_height - query)`, the SQL ordering key. */
  function Distance(a: int, b: int): nat {
    if a >= b then a - b else b - a
  }

  /** A row that passes `WHERE token = ? AND block_height <= ?`. */
  predicate IsCandidate(rows: Rows, token: string, query: int, k: Key) {
    k in rows && k.token == token && k.height <= query
  }

  /** A finite non-empty set of keys has an element nearest to the query. */
  lemma {:induction false} ClosestExists(ks: set<Key>, query: int)
    requires ks != {}
    ensures exists k :: k in ks && forall k' :: k' in ks ==> Distance(k.height, query) <= Distance(k'.height, query)
    decreases |ks|
  {
    var x :| x in ks;
    if ks != {x} {
      var rest := ks - {x};
      ClosestExists(rest, query);
      var m :| m in rest && forall k' :: k' in rest ==> Distance(m.height, query) <= Distance(k'.height, query);
      if Distance(x.height, query) < Distance(m.height, query) {
        assert forall k' :: k' in ks ==> Distance(x.height, query) <= Distance(k'.height, query);
      } else {
        assert forall k' :: k' in ks ==> Distance(m.height, query) <= Distance(k'.height, query);
      }
    }
  }

  /** `get_price`: the row at the greatest stored height at or below the query,
      or `None` (HTTP 404) when the token has no row at or below the query,
      however many rows it has above it. */
  function GetPrice(rows: Rows, token: string, query: int): (r: Option<Row>)
    ensures r.Some? ==> IsCandidate(rows, Lower(token), query, Key(r.value.height, Lower(token)))
    ensures r.Some? ==> rows[Key(r.value.height, Lower(token))] == r.value.price
    ensures r.Some? ==> forall k :: IsCandidate(rows, Lower(token), query, k) ==> k.height <= r.value.height
    ensures r.None? <==> forall k :: !IsCandidate(rows, Lower(token), query, k)
  {
    var t := Lower(token);
    var candidates := set k | k in rows.Keys && k.token == t && k.height <= query;
    assert forall k :: IsCandidate(rows, t, query, k) <==> k in candidates;
    if candidates == {} then
      None
    else
      ClosestExists(candidates, query);
      var k :| k in candidates && forall k' :: k' in candidates ==> Distance(k.height, query) <= Distance(k'.height, query);
      Some(Row(k.height, rows[k]))
  }

  /** The lookup folds the case of the token, so `ETHUSD` and `ethusd` find
      the same row. */
  lemma GetPriceCaseInsensitive(rows: Rows, token1: string, token2: string, query: int)
    requires Lower(token1) == Lower(token2)
    ensures GetPrice(rows, token1, query) == GetPrice(rows, token2, query)
  {
  }

  /** Rows above the query height never change its answer. */
  lemma GetPriceIgnoresLaterRows(rows: Rows, token: string, query: int, height: int, price: Price)
    requires height > query
    ensures GetPrice(rows[Key(height, Lower(token)) := price], token, query) == GetPrice(rows, token, query)
  {
  }

  /** A row written at some height is what the query at that very height
      answers. */
  lemma GetPriceAfterUpsert(rows: Rows, token: string, height: int, price: Price)
    ensures GetPrice(rows[Key(height, Lower(token)) := price], token, height) == Some(Row(height, price))
  {
    var rows' := rows[Key(height, Lower(token)) := price];
    assert IsCandidate(rows', Lower(token), height, Key(height, Lower(token)));
  }

  /** Every row of a lower-case token is what the query at its own height
      answers. */
  lemma GetPriceFindsStoredRow(rows: Rows, k: Key)
    requires k in rows && IsLower(k.token)
    ensures GetPrice(rows, k.token, k.height) == Some(Row(k.height, rows[k]))
  {
    LowerCharacterisation(k.token);
    assert IsCandidate(rows, Lower(k.token), k.height, k);
  }

  /** Heights 100, 200 and 300 priced 10, 20 and 30: the query at 250 answers
      the row at 200, the query at 50 answers not found. */
  lemma GetPriceExample()
    ensures var rows := map[Key(100, "ethusd") := 10.0, Key(200, "ethusd") := 20.0, Key(300, "ethusd") := 30.0];
            GetPrice(rows, "ETHUSD", 250) == Some(Row(200, 20.0)) && GetPrice(rows, "ethusd", 50) == None
  {
    var rows := map[Key(100, "ethusd") := 10.0, Key(200, "ethusd") := 20.0, Key(300, "ethusd") := 30.0];
    assert Lower("ETHUSD") == "ethusd";
    assert Lower("ethusd") == "ethusd";
    assert IsCandidate(rows, "ethusd", 250, Key(200, "ethusd"));
    var r := GetPrice(rows, "ETHUSD", 250);
    assert r.value.height == 200 by {
      var k := Key(r.value.height, "ethusd");
      assert k in rows;
      assert k == Key(100, "ethusd") || k == Key(200, "ethusd") || k == Key(300, "ethusd");
    }
    assert forall k :: k in rows ==> k.height >= 100;
  }
}
