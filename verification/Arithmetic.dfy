/** Rounding up. */
module Arithmetic {

  /** ceil(m / limit) times `limit` covers `m`. */
  lemma CeilingCovers(m: nat, limit: nat, n: nat)
    requires limit > 0 && n >= (m + limit - 1) / limit
    ensures n * limit >= m
  {
    var q := (m + limit - 1) / limit;
    assert q * limit >= m;
    assert n * limit >= q * limit;
  }
}
