/** The store keeps its ledger in a map keyed by encoded strings. Because the encoding is injective, that
    map refines the ledger keyed by event identities. */
module LedgerView {
  import opened Domain
  import opened Keys
  import opened Ledger

  type Encoded = map<Bytes, Record>

  ghost predicate Keyed(m: Encoded) {
    forall b :: b in m ==> b == IngestEventKey(m[b].key)
  }

  ghost function View(m: Encoded): Events
    requires Keyed(m)
  {
    map b | b in m :: m[b].key := m[b]
  }

  lemma ViewOfEmpty()
    ensures Keyed(map[]) && View(map[]) == map[]
  {
  }

  lemma ViewLookup(m: Encoded, k: EventKey)
    requires Keyed(m)
    ensures k in View(m) <==> IngestEventKey(k) in m
    ensures k in View(m) ==> View(m)[k] == m[IngestEventKey(k)] && View(m)[k].key == k
  {
    if IngestEventKey(k) in m {
      IngestEventKeyIsInjective(m[IngestEventKey(k)].key, k);
    }
  }

  lemma ViewIsWellKeyed(m: Encoded)
    requires Keyed(m)
    ensures WellKeyed(View(m))
  {
  }

  lemma ViewPut(m: Encoded, r: Record)
    requires Keyed(m)
    ensures var m' := m[IngestEventKey(r.key) := r]; Keyed(m') && View(m') == View(m)[r.key := r]
  {
    var b := IngestEventKey(r.key);
    var m' := m[b := r];
    assert b in m';
    forall k ensures k in View(m') <==> k in View(m)[r.key := r] {
      ViewLookup(m, k);
      ViewLookup(m', k);
      IngestEventKeyIsInjective(k, r.key);
    }
    forall k | k in View(m') ensures View(m')[k] == View(m)[r.key := r][k] {
      ViewLookup(m, k);
      ViewLookup(m', k);
      IngestEventKeyIsInjective(k, r.key);
    }
  }

  /** The event identities behind a set of stored keys. */
  function Identities(m: Encoded, keys: set<Bytes>): set<EventKey> {
    set b | b in keys && b in m :: m[b].key
  }

  lemma ViewDelete(m: Encoded, keys: set<Bytes>)
    requires Keyed(m)
    ensures Keyed(m - keys) && View(m - keys) == Purge(View(m), Identities(m, keys))
  {
    forall k ensures k in View(m - keys) <==> k in Purge(View(m), Identities(m, keys)) {
      ViewLookup(m, k);
      ViewLookup(m - keys, k);
    }
    forall k | k in View(m - keys) ensures View(m - keys)[k] == View(m)[k] {
      ViewLookup(m, k);
      ViewLookup(m - keys, k);
    }
  }
}
