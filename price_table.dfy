/** The `prices` table: columns (block_height, token, price) with primary key
    (block_height, token). A map from the key to the price holds exactly the
    rows such a table can hold: at most one price per key. */
module PriceTable {

  type Price = real

  datatype Key = Key(height: int, token: string)

  type Rows = map<Key, Price>

  /** The keys of the rows `WHERE token = token`. */
  function TokenKeys(rows: Rows, token: string): (ks: set<Key>)
    ensures forall k :: k in ks <==> k in rows && k.token == token
  {
    set k | k in rows.Keys && k.token == token
  }

  /** `SELECT count(*) FROM prices WHERE token = ?`. */
  function TokenCount(rows: Rows, token: string): nat {
    |TokenKeys(rows, token)|
  }

  /** `INSERT OR REPLACE` of a new key adds one row to the count of that key's
      token; replacing an existing key adds none; no other token's count moves. */
  lemma UpsertCount(rows: Rows, key: Key, price: Price, token: string)
    ensures TokenCount(rows[key := price], token) ==
            TokenCount(rows, token) + (if key.token == token && key !in rows then 1 else 0)
  {
    var before, after := TokenKeys(rows, token), TokenKeys(rows[key := price], token);
    if key.token == token {
      assert after == before + {key};
      if key in rows {
        assert after == before;
      }
    } else {
      assert after == before;
    }
  }

  /** The count of a token is positive exactly when some row carries it. */
  lemma CountPositive(rows: Rows, token: string)
    ensures TokenCount(rows, token) > 0 <==> exists k :: k in rows && k.token == token
  {
  }
}
