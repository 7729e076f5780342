/** The per-symbol decision flow (process_symbol) and the run over all symbols (main).

    fetch is replaced by its result, a `Feed`, and send_discord by the boolean it returns. */
module Pipeline {
  import opened Types
  import opened Bands
  import opened Signals
  import opened Dedup

  /** BB_LENGTH, BB_MULT, LOOSE_MODE and BACKFILL_LOOKBACK. */
  datatype Config = Config(length: nat, mult: real, loose: bool, lookback: int)

  /** What fetch returned for one symbol, with the standard deviation of each full window. */
  datatype Feed = Feed(bars: seq<Bar>, sd: seq<real>)

  predicate WellFormed(feed: Feed, cfg: Config) {
    cfg.length >= 1 && |feed.sd| == |feed.bars|
  }

  /** How one call of process_symbol ended. `Raised` is an exception caught by main. */
  datatype Outcome =
    | NoData
    | Insufficient
    | NoSignal
    | Suppressed(e: Entry)
    | SendFailed(e: Entry)
    | Delivered(e: Entry)
    | Raised

  predicate Signalled(o: Outcome) {
    o.Suppressed? || o.SendFailed? || o.Delivered?
  }

  /** The rows of the frame that survive compute_bb and dropna. */
  function DefinedRows(feed: Feed, cfg: Config): seq<BandedBar>
    requires WellFormed(feed, cfg)
  {
    DropUndefined(ComputeBands(feed.bars, feed.sd, cfg.length, cfg.mult))
  }

  /** `df.iloc[-2], df.iloc[-1]` after dropna, or None when fewer than two rows are left. The pair
      exists exactly when there are length + 1 bars, and it is the last two fetched bars. */
  function LatestPair(feed: Feed, cfg: Config): (p: Option<(BandedBar, BandedBar)>)
    requires WellFormed(feed, cfg)
    ensures p.Some? <==> |feed.bars| >= cfg.length + 1
    ensures p.Some? ==>
      var banded := ComputeBands(feed.bars, feed.sd, cfg.length, cfg.mult);
      p.value == (banded[|feed.bars| - 2], banded[|feed.bars| - 1])
  {
    var d := DefinedRows(feed, cfg);
    DefinedBarsAreTheTail(feed.bars, feed.sd, cfg.length, cfg.mult);
    if |d| < 2 then None else Some((d[|d| - 2], d[|d| - 1]))
  }

  /** process_symbol as a function of the ledger contents `sent` and of what send_discord returns.
      A key is sent only when it is not in the ledger, and a send's result decides the outcome. */
  function Decide(symbol: string, feed: Feed, cfg: Config, sent: set<Entry>, delivered: bool): (o: Outcome)
    requires WellFormed(feed, cfg)
    ensures o != Raised
    ensures Signalled(o) ==> o.e.symbol == symbol
    ensures o.Suppressed? ==> o.e in sent
    ensures o.SendFailed? ==> o.e !in sent && !delivered
    ensures o.Delivered? ==> o.e !in sent && delivered
  {
    if feed.bars == [] then NoData
    else
      match LatestPair(feed, cfg)
      case None => Insufficient
      case Some((prev, cur)) =>
        match Classify(prev, cur, cfg.loose)
        case None => NoSignal
        case Some(sig) =>
          var e := Entry(symbol, cur.ts, sig);
          if e in sent then Suppressed(e)
          else if delivered then Delivered(e)
          else SendFailed(e)
  }

  /** The ledger after an outcome: mark_sent runs only after a successful send. */
  function Record(sent: set<Entry>, o: Outcome): (r: set<Entry>)
    ensures sent <= r
    ensures r - sent == (if o.Delivered? then {o.e} - sent else {})
  {
    if o.Delivered? then sent + {o.e} else sent
  }

  /** process_symbol: drop the warm-up rows, require two defined rows, optionally run the backfill
      report, classify the latest pair, skip a key already in the ledger, send, and record the key
      only when the send succeeded. */
  method ProcessSymbol(ledger: Ledger, symbol: string, feed: Feed, cfg: Config, delivered: bool)
    returns (outcome: Outcome, backfill: Option<Report>)
    requires WellFormed(feed, cfg)
    modifies ledger
    ensures outcome == Decide(symbol, feed, cfg, old(ledger.entries), delivered)
    ensures ledger.entries == Record(old(ledger.entries), outcome)
    ensures backfill.Some? <==> feed.bars != [] && |DefinedRows(feed, cfg)| >= 2 && cfg.lookback > 0
    ensures backfill.Some? ==>
      backfill.value == ReportOn(Tail(DefinedRows(feed, cfg), if cfg.lookback > 2 then cfg.lookback else 2))
  {
    backfill := None;
    if feed.bars == [] {
      return NoData, backfill;
    }
    var d := DefinedRows(feed, cfg);
    if |d| < 2 {
      return Insufficient, backfill;
    }
    if cfg.lookback > 0 {
      var report := Backfill(d, cfg.lookback);
      backfill := Some(report);
    }
    var prev, cur := d[|d| - 2], d[|d| - 1];
    var sig := Classify(prev, cur, cfg.loose);
    if sig.None? {
      return NoSignal, backfill;
    }
    var found := ledger.AlreadySent(symbol, cur.ts, sig.value);
    if found {
      return Suppressed(Entry(symbol, cur.ts, sig.value)), backfill;
    }
    if delivered {
      ledger.MarkSent(symbol, cur.ts, sig.value);
      outcome := Delivered(Entry(symbol, cur.ts, sig.value));
    } else {
      outcome := SendFailed(Entry(symbol, cur.ts, sig.value));
    }
  }

  // ---- Properties of the decision flow

  /** Fewer than length + 1 bars never reach detection: the symbol ends as NoData or
      Insufficient and the ledger is unchanged. */
  lemma ShortSeriesSkipped(symbol: string, feed: Feed, cfg: Config, sent: set<Entry>, delivered: bool)
    requires WellFormed(feed, cfg)
    requires |feed.bars| < cfg.length + 1
    ensures var o := Decide(symbol, feed, cfg, sent, delivered);
      (o == NoData || o == Insufficient) && Record(sent, o) == sent
  {
  }

  /** A signal is always about the latest fetched bar: its key carries that bar's timestamp and
      the classification of the last two fetched bars, which are both past the warm-up. */
  lemma SignalOnLatestBar(symbol: string, feed: Feed, cfg: Config, sent: set<Entry>, delivered: bool)
    requires WellFormed(feed, cfg)
    ensures var o := Decide(symbol, feed, cfg, sent, delivered);
      var n := |feed.bars|;
      var banded := ComputeBands(feed.bars, feed.sd, cfg.length, cfg.mult);
      Signalled(o) ==>
        n >= cfg.length + 1 && o.e.ts == feed.bars[n - 1].ts &&
        Classify(banded[n - 2], banded[n - 1], cfg.loose) == Some(o.e.sig)
  {
    var o := Decide(symbol, feed, cfg, sent, delivered);
    if Signalled(o) {
      var p := LatestPair(feed, cfg);
      assert p.Some?;
      var (prev, cur) := p.value;
      assert o.e == Entry(symbol, cur.ts, Classify(prev, cur, cfg.loose).value);
    }
  }

  /** With loose mode off the only keys ever checked, sent or recorded are strict crossings. */
  lemma StrictModeSignalsOnlyCrossings(symbol: string, feed: Feed, cfg: Config, sent: set<Entry>, delivered: bool)
    requires WellFormed(feed, cfg) && !cfg.loose
    ensures var o := Decide(symbol, feed, cfg, sent, delivered);
      Signalled(o) ==> o.e.sig == CrossAbove || o.e.sig == CrossBelow
  {
  }

  /** At most once: a key already in the ledger is never sent again, and after a successful
      delivery a rerun on the same data is suppressed whatever the sink would answer. */
  lemma NotifiedAtMostOnce(symbol: string, feed: Feed, cfg: Config, sent: set<Entry>, delivered: bool, again: bool)
    requires WellFormed(feed, cfg)
    ensures var o := Decide(symbol, feed, cfg, sent, delivered);
      (o.Delivered? || o.SendFailed? ==> o.e !in sent) &&
      (o.Delivered? ==> Decide(symbol, feed, cfg, Record(sent, o), again) == Suppressed(o.e))
  {
  }

  /** A failed send leaves the ledger as it was, so the next run on the same data sends the same
      key again; once that send succeeds the key is recorded. */
  lemma RetriedAfterFailedSend(symbol: string, feed: Feed, cfg: Config, sent: set<Entry>)
    requires WellFormed(feed, cfg)
    ensures var o := Decide(symbol, feed, cfg, sent, false);
      o.SendFailed? ==>
        Record(sent, o) == sent &&
        Decide(symbol, feed, cfg, Record(sent, o), true) == Delivered(o.e) &&
        o.e in Record(sent, Delivered(o.e))
  {
  }

  /** The converse of SignalOnLatestBar: whenever length + 1 bars were fetched and the last two
      classify to a signal, its key is acted on. An absent key is sent, and the send's result
      decides between Delivered and SendFailed; a present key is suppressed. When the last two
      classify to nothing, the symbol ends as NoSignal. */
  lemma LatestSignalIsActedOn(symbol: string, feed: Feed, cfg: Config, sent: set<Entry>, delivered: bool)
    requires WellFormed(feed, cfg) && |feed.bars| >= cfg.length + 1
    ensures var n := |feed.bars|;
      var banded := ComputeBands(feed.bars, feed.sd, cfg.length, cfg.mult);
      var o := Decide(symbol, feed, cfg, sent, delivered);
      match Classify(banded[n - 2], banded[n - 1], cfg.loose)
      case None => o == NoSignal
      case Some(sig) =>
        var e := Entry(symbol, feed.bars[n - 1].ts, sig);
        o == (if e in sent then Suppressed(e) else if delivered then Delivered(e) else SendFailed(e))
  {
    var n := |feed.bars|;
    var banded := ComputeBands(feed.bars, feed.sd, cfg.length, cfg.mult);
    var p := LatestPair(feed, cfg);
    assert feed.bars != [] && p == Some((banded[n - 2], banded[n - 1]));
    assert banded[n - 1].ts == feed.bars[n - 1].ts;
  }

  // ---- The run over all symbols

  /** What happened to one symbol of the run: process_symbol ran on the fetched feed and the sink
      answered `delivered`, or it raised before touching the ledger and main caught it. */
  datatype Attempt = Fetched(feed: Feed, delivered: bool) | Fails

  /** The keys delivered by a sequence of outcomes. */
  function DeliveredKeys(os: seq<Outcome>): (r: set<Entry>)
    ensures forall k :: 0 <= k < |os| && os[k].Delivered? ==> os[k].e in r
  {
    set k | 0 <= k < |os| && os[k].Delivered? :: os[k].e
  }

  lemma {:induction false} DeliveredKeysSnoc(os: seq<Outcome>, o: Outcome)
    ensures DeliveredKeys(os + [o]) == DeliveredKeys(os) + (if o.Delivered? then {o.e} else {})
  {
    var s := os + [o];
    forall e | e in DeliveredKeys(s) ensures e in DeliveredKeys(os) + (if o.Delivered? then {o.e} else {}) {
      var k :| 0 <= k < |s| && s[k].Delivered? && s[k].e == e;
      if k < |os| {
        assert os[k] == s[k];
      }
    }
    forall e | e in DeliveredKeys(os) ensures e in DeliveredKeys(s) {
      var k :| 0 <= k < |os| && os[k].Delivered? && os[k].e == e;
      assert s[k] == os[k];
    }
    if o.Delivered? {
      assert s[|os|] == o;
    }
  }

  /** One iteration of main's loop: the try block around process_symbol and its except clause. */
  method TryProcessSymbol(ledger: Ledger, symbol: string, attempt: Attempt, cfg: Config) returns (o: Outcome)
    requires attempt.Fetched? ==> WellFormed(attempt.feed, cfg)
    modifies ledger
    ensures o == Raised <==> attempt.Fails?
    ensures attempt.Fetched? ==> o == Decide(symbol, attempt.feed, cfg, old(ledger.entries), attempt.delivered)
    ensures ledger.entries == old(ledger.entries) + (if o.Delivered? then {o.e} else {})
  {
    match attempt {
      case Fails =>
        o := Raised;
      case Fetched(feed, delivered) =>
        var report;
        o, report := ProcessSymbol(ledger, symbol, feed, cfg, delivered);
    }
  }

  /** main: process every symbol in order; a symbol that raises is skipped and the loop goes on.
      Each symbol sees the ledger as the symbols before it left it, the ledger grows by exactly the
      delivered keys, and no key is delivered twice or delivered when it was already recorded. */
  method Run(ledger: Ledger, symbols: seq<string>, attempts: seq<Attempt>, cfg: Config)
    returns (outcomes: seq<Outcome>)
    requires |attempts| == |symbols|
    requires forall i :: 0 <= i < |attempts| && attempts[i].Fetched? ==> WellFormed(attempts[i].feed, cfg)
    modifies ledger
    ensures |outcomes| == |symbols|
    ensures forall i :: 0 <= i < |symbols| ==> (outcomes[i] == Raised <==> attempts[i].Fails?)
    ensures forall i :: 0 <= i < |symbols| && attempts[i].Fetched? ==>
      outcomes[i] == Decide(symbols[i], attempts[i].feed, cfg,
                            old(ledger.entries) + DeliveredKeys(outcomes[..i]), attempts[i].delivered)
    ensures ledger.entries == old(ledger.entries) + DeliveredKeys(outcomes)
    ensures forall i :: 0 <= i < |outcomes| && outcomes[i].Delivered? ==> outcomes[i].e !in old(ledger.entries)
    ensures forall i, j :: 0 <= i < j < |outcomes| && outcomes[i].Delivered? && outcomes[j].Delivered? ==>
      outcomes[i].e != outcomes[j].e
  {
    outcomes := [];
    var i := 0;
    while i < |symbols|
      invariant 0 <= i <= |symbols| && |outcomes| == i
      invariant forall k :: 0 <= k < i ==> (outcomes[k] == Raised <==> attempts[k].Fails?)
      invariant forall k :: 0 <= k < i && attempts[k].Fetched? ==>
        outcomes[k] == Decide(symbols[k], attempts[k].feed, cfg,
                              old(ledger.entries) + DeliveredKeys(outcomes[..k]), attempts[k].delivered)
      invariant ledger.entries == old(ledger.entries) + DeliveredKeys(outcomes)
      invariant forall k :: 0 <= k < i && outcomes[k].Delivered? ==> outcomes[k].e !in old(ledger.entries)
      invariant forall k, j :: 0 <= k < j < i && outcomes[k].Delivered? && outcomes[j].Delivered? ==>
        outcomes[k].e != outcomes[j].e
    {
      var o := TryProcessSymbol(ledger, symbols[i], attempts[i], cfg);
      assert o.Delivered? ==> o.e !in old(ledger.entries) && o.e !in DeliveredKeys(outcomes);
      DeliveredKeysSnoc(outcomes, o);
      var next := outcomes + [o];
      assert next[..i] == outcomes;
      assert forall k :: 0 <= k < i ==> next[..k] == outcomes[..k];
      outcomes := next;
      i := i + 1;
    }
    assert outcomes[..|outcomes|] == outcomes;
  }
}
