/** The dedup ledger: the `alerts` table whose primary key is (symbol, bar_ts, signal). A set of
    keys stands for the table; uniqueness of the key is the set's, and INSERT OR IGNORE is set
    union with one element. */
module Dedup {
  import opened Types
  import opened Bands
  import opened Signals

  /** One row of the alerts table, which is also its whole primary key. */
  datatype Entry = Entry(symbol: string, ts: Instant, sig: Signal)

  class Ledger {
    /** The rows of the alerts table. */
    var entries: set<Entry>

    /** db_init: open the table, creating it when absent; rows of earlier runs are kept. */
    constructor Open(persisted: set<Entry>)
      ensures entries == persisted
    {
      entries := persisted;
    }

    /** already_sent: the exact triple has a row. */
    method AlreadySent(symbol: string, ts: Instant, sig: Signal) returns (found: bool)
      ensures found <==> Entry(symbol, ts, sig) in entries
    {
      found := Entry(symbol, ts, sig) in entries;
    }

    /** mark_sent: INSERT OR IGNORE. Afterwards the triple is present; inserting a present triple
        changes nothing; no other triple gains or loses its row. */
    method MarkSent(symbol: string, ts: Instant, sig: Signal)
      modifies this
      ensures entries == old(entries) + {Entry(symbol, ts, sig)}
      ensures Entry(symbol, ts, sig) in entries
      ensures Entry(symbol, ts, sig) in old(entries) ==> entries == old(entries)
      ensures forall e :: e != Entry(symbol, ts, sig) ==> (e in entries <==> e in old(entries))
    {
      entries := entries + {Entry(symbol, ts, sig)};
    }
  }
}
