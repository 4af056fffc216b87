/** The abuse-detection and blocking engine: two per-key hit logs over sliding windows
    (suspicious input, backend query errors) that both write one block table, and a
    gate that answers "is this key blocked now?" with lazy expiry of stale entries.
    The process-wide maps become one explicit state value; the clock becomes a
    parameter; every public operation is one atomic step. */
module Engine {
  import opened Window

  /** A request origin; in the services it is the client address string. */
  type Key = string

  const SuspiciousThreshold: nat := 5
  const SuspiciousWindow: int := 60
  const BlockTime: int := 300
  const SqlErrorThreshold: nat := 5
  const SqlErrorWindow: int := 60

  /** The three maps the engine owns: hit timestamps per key for each signal, and the
      time until which each key is blocked. */
  datatype State = State(
    suspicious: map<Key, seq<int>>,
    sqlErrors: map<Key, seq<int>>,
    blocked: map<Key, int>)

  /** The state at service start. */
  const Initial: State := State(map[], map[], map[])

  /** The hit list stored for `ip`; a key never recorded has an empty list. */
  function HitsOf(log: map<Key, seq<int>>, ip: Key): seq<int>
  {
    if ip in log then log[ip] else []
  }

  /** The hit list for `ip` once a hit at `ts` is appended and the hits older than
      `ts - window` are dropped. */
  function Recent(log: map<Key, seq<int>>, ip: Key, ts: int, window: int): seq<int>
  {
    Prune(HitsOf(log, ip) + [ts], ts - window)
  }

  /** A hit at `ts` brings the count inside the window up to the threshold. */
  predicate Trips(log: map<Key, seq<int>>, ip: Key, ts: int, window: int, threshold: nat)
  {
    |Recent(log, ip, ts, window)| >= threshold
  }

  /** The meaning of the block table: `ip` is blocked at `now` when its entry is a
      non-zero time strictly after `now`. A zero entry is falsy in the source and so
      reads as no entry; a past entry reads as no entry too. */
  predicate BlockedAt(blocked: map<Key, int>, ip: Key, now: int)
  {
    ip in blocked && blocked[ip] != 0 && blocked[ip] > now
  }

  /** Every stored hit list is shorter than its signal's threshold. */
  ghost predicate Bounded(st: State)
  {
    && (forall k :: k in st.suspicious ==> |st.suspicious[k]| < SuspiciousThreshold)
    && (forall k :: k in st.sqlErrors ==> |st.sqlErrors[k]| < SqlErrorThreshold)
  }

  /** The answer of the gate together with the state after its lazy cleanup. */
  datatype Gate = Gate(refused: bool, state: State)

  /** The gate question for `ip` at `now`. An entry that has expired is removed and the
      answer is no; a live entry answers yes; nothing else in the state changes. */
  function IsBlocked(st: State, ip: Key, now: int): (g: Gate)
    ensures g.refused <==> BlockedAt(st.blocked, ip, now)
    ensures g.state.suspicious == st.suspicious
    ensures g.state.sqlErrors == st.sqlErrors
    ensures forall k :: k in st.blocked && k != ip ==> k in g.state.blocked
    ensures forall k :: k in g.state.blocked ==> k in st.blocked && g.state.blocked[k] == st.blocked[k]
    ensures ip in st.blocked && st.blocked[ip] != 0 && st.blocked[ip] <= now ==> ip !in g.state.blocked
    ensures ip in st.blocked && (st.blocked[ip] == 0 || st.blocked[ip] > now) ==> g.state == st
  {
    var unblock := if ip in st.blocked then st.blocked[ip] else 0;
    if unblock != 0 && unblock > now then Gate(true, st)
    else if unblock != 0 && unblock <= now then Gate(false, st.(blocked := st.blocked - {ip}))
    else Gate(false, st)
  }

  /** The pair of maps one signal's recorder touches: its own hit log and the shared
      block table. */
  datatype Tally = Tally(log: map<Key, seq<int>>, blocked: map<Key, int>)

  /** The protocol both recorders share: append `ts` to the key's list, drop what fell
      out of the window, and at the threshold block the key until `ts + BlockTime`
      (overwriting any earlier block) and clear its list. */
  function RecordHit(log: map<Key, seq<int>>, blocked: map<Key, int>, ip: Key, ts: int,
                     window: int, threshold: nat): (r: Tally)
    requires threshold > 0
    ensures r.log.Keys == log.Keys + {ip}
    ensures forall k :: k in log && k != ip ==> r.log[k] == log[k]
    ensures |r.log[ip]| < threshold
    ensures Trips(log, ip, ts, window, threshold) ==>
              r.log[ip] == [] && r.blocked == blocked[ip := ts + BlockTime]
    ensures !Trips(log, ip, ts, window, threshold) ==>
              r.log[ip] == Recent(log, ip, ts, window) && r.blocked == blocked
  {
    var lst := Recent(log, ip, ts, window);
    if |lst| >= threshold then Tally(log[ip := []], blocked[ip := ts + BlockTime])
    else Tally(log[ip := lst], blocked)
  }

  /** A suspicious-input hit from `ip` at `ts`. It touches only the suspicious log's
      entry for `ip` and, on a trip, the block entry for `ip`. */
  function RecordSuspicious(st: State, ip: Key, ts: int): (r: State)
    ensures r.sqlErrors == st.sqlErrors
    ensures r.suspicious.Keys == st.suspicious.Keys + {ip}
    ensures forall k :: k in st.suspicious && k != ip ==> r.suspicious[k] == st.suspicious[k]
    ensures |r.suspicious[ip]| < SuspiciousThreshold
    ensures Trips(st.suspicious, ip, ts, SuspiciousWindow, SuspiciousThreshold) ==>
              r.suspicious[ip] == [] && r.blocked == st.blocked[ip := ts + BlockTime]
    ensures !Trips(st.suspicious, ip, ts, SuspiciousWindow, SuspiciousThreshold) ==>
              r.suspicious[ip] == Recent(st.suspicious, ip, ts, SuspiciousWindow) &&
              r.blocked == st.blocked
  {
    var t := RecordHit(st.suspicious, st.blocked, ip, ts, SuspiciousWindow, SuspiciousThreshold);
    st.(suspicious := t.log, blocked := t.blocked)
  }

  /** A backend query error for `ip` at `ts`: the same protocol on the error log with
      its own window and threshold, writing the same block table. */
  function RecordSqlError(st: State, ip: Key, ts: int): (r: State)
    ensures r.suspicious == st.suspicious
    ensures r.sqlErrors.Keys == st.sqlErrors.Keys + {ip}
    ensures forall k :: k in st.sqlErrors && k != ip ==> r.sqlErrors[k] == st.sqlErrors[k]
    ensures |r.sqlErrors[ip]| < SqlErrorThreshold
    ensures Trips(st.sqlErrors, ip, ts, SqlErrorWindow, SqlErrorThreshold) ==>
              r.sqlErrors[ip] == [] && r.blocked == st.blocked[ip := ts + BlockTime]
    ensures !Trips(st.sqlErrors, ip, ts, SqlErrorWindow, SqlErrorThreshold) ==>
              r.sqlErrors[ip] == Recent(st.sqlErrors, ip, ts, SqlErrorWindow) &&
              r.blocked == st.blocked
  {
    var t := RecordHit(st.sqlErrors, st.blocked, ip, ts, SqlErrorWindow, SqlErrorThreshold);
    st.(sqlErrors := t.log, blocked := t.blocked)
  }

  // ---------------------------------------------------------------------------
  // Properties of the gate

  /** Lazy expiry is invisible: from `now` on, the state after the gate answers every
      gate question, for every key, exactly as the state before would. */
  lemma GateOnlySweepsExpired(st: State, ip: Key, now: int)
    ensures forall k, t :: t >= now ==>
              (BlockedAt(IsBlocked(st, ip, now).state.blocked, k, t) <==> BlockedAt(st.blocked, k, t))
  {
  }

  /** Asking twice at the same time gives the same answer and the same state. */
  lemma GateIdempotent(st: State, ip: Key, now: int)
    ensures IsBlocked(IsBlocked(st, ip, now).state, ip, now) == IsBlocked(st, ip, now)
  {
  }

  /** A key that was never blocked is never reported blocked. */
  lemma NeverBlockedKeyPasses(st: State, ip: Key, now: int)
    requires ip !in st.blocked
    ensures !IsBlocked(st, ip, now).refused
    ensures IsBlocked(st, ip, now).state == st
  {
  }

  // ---------------------------------------------------------------------------
  // Properties of the recorders

  /** Without a trip, the stored list holds exactly the old hits at or after the
      inclusive cutoff `ts - SuspiciousWindow`, plus the new hit `ts`, and stays
      below the threshold. */
  lemma SuspiciousWindowContents(st: State, ip: Key, ts: int)
    requires !Trips(st.suspicious, ip, ts, SuspiciousWindow, SuspiciousThreshold)
    ensures var lst := RecordSuspicious(st, ip, ts).suspicious[ip];
            && ts in lst
            && 0 < |lst| < SuspiciousThreshold
            && forall t :: multiset(lst)[t] ==
                 (if t >= ts - SuspiciousWindow then multiset(HitsOf(st.suspicious, ip) + [ts])[t] else 0)
  {
    var lst := RecordSuspicious(st, ip, ts).suspicious[ip];
    PruneContents(HitsOf(st.suspicious, ip) + [ts], ts - SuspiciousWindow);
    assert multiset(lst)[ts] > 0;
  }

  /** Both recorders keep every stored hit list below its threshold. */
  lemma RecordersKeepBounded(st: State, ip: Key, ts: int)
    requires Bounded(st)
    ensures Bounded(RecordSuspicious(st, ip, ts))
    ensures Bounded(RecordSqlError(st, ip, ts))
    ensures Bounded(IsBlocked(st, ip, ts).state)
  {
    var r := RecordSuspicious(st, ip, ts);
    forall k | k in r.suspicious
      ensures |r.suspicious[k]| < SuspiciousThreshold
    {
      if k != ip {
        assert r.suspicious[k] == st.suspicious[k];
      }
    }
    var e := RecordSqlError(st, ip, ts);
    forall k | k in e.sqlErrors
      ensures |e.sqlErrors[k]| < SqlErrorThreshold
    {
      if k != ip {
        assert e.sqlErrors[k] == st.sqlErrors[k];
      }
    }
  }

  /** A block is set, never extended: a trip at `ts` leaves the key blocked until
      exactly `ts + BlockTime`, even when an earlier block ran longer. */
  lemma TripOverwritesBlock(st: State, ip: Key, ts: int)
    requires Trips(st.suspicious, ip, ts, SuspiciousWindow, SuspiciousThreshold)
    requires ip in st.blocked && st.blocked[ip] > ts + BlockTime
    ensures RecordSuspicious(st, ip, ts).blocked[ip] == ts + BlockTime < st.blocked[ip]
    ensures !BlockedAt(RecordSuspicious(st, ip, ts).blocked, ip, ts + BlockTime)
  {
  }

  /** Hits that all lie before the window are forgotten: the new hit starts a fresh
      count of one and no block is written. */
  lemma StaleHitsAgeOut(st: State, ip: Key, ts: int)
    requires forall i :: 0 <= i < |HitsOf(st.suspicious, ip)| ==>
               HitsOf(st.suspicious, ip)[i] < ts - SuspiciousWindow
    ensures RecordSuspicious(st, ip, ts).suspicious[ip] == [ts]
    ensures RecordSuspicious(st, ip, ts).blocked == st.blocked
  {
    var prior := HitsOf(st.suspicious, ip);
    PruneAppendRecent(prior, ts, ts - SuspiciousWindow);
    PruneAllStale(prior, ts - SuspiciousWindow);
  }

  /** The two counters do not pool. Recording one signal leaves the other signal's
      log, and so every later trip decision of the other signal, exactly as it was;
      whether a backend error blocks a key does not depend on the key's suspicious
      hits, nor the other way round; and in particular a key's first hit of either
      signal blocks nothing, however many hits of the other signal it has. */
  lemma SignalsDoNotPool(st: State, ip: Key, ts: int, k: Key, t: int,
                         otherSuspicious: map<Key, seq<int>>, otherErrors: map<Key, seq<int>>)
    ensures Trips(RecordSuspicious(st, ip, ts).sqlErrors, k, t, SqlErrorWindow, SqlErrorThreshold)
            == Trips(st.sqlErrors, k, t, SqlErrorWindow, SqlErrorThreshold)
    ensures Trips(RecordSqlError(st, ip, ts).suspicious, k, t, SuspiciousWindow, SuspiciousThreshold)
            == Trips(st.suspicious, k, t, SuspiciousWindow, SuspiciousThreshold)
    ensures RecordSqlError(st.(suspicious := otherSuspicious), ip, ts)
            == RecordSqlError(st, ip, ts).(suspicious := otherSuspicious)
    ensures RecordSuspicious(st.(sqlErrors := otherErrors), ip, ts)
            == RecordSuspicious(st, ip, ts).(sqlErrors := otherErrors)
    ensures HitsOf(st.sqlErrors, ip) == [] ==> RecordSqlError(st, ip, ts).blocked == st.blocked
    ensures HitsOf(st.suspicious, ip) == [] ==> RecordSuspicious(st, ip, ts).blocked == st.blocked
  {
    PruneAppendRecent([], ts, ts - SqlErrorWindow);
    PruneAppendRecent([], ts, ts - SuspiciousWindow);
  }

  /** The block table after one recorder, for either signal: a trip writes `ts +
      BlockTime` for the key, anything else leaves the table alone. */
  function BlockWrite(blocked: map<Key, int>, ip: Key, ts: int, trips: bool): map<Key, int>
  {
    if trips then blocked[ip := ts + BlockTime] else blocked
  }

  /** Two block writes commute when they concern different keys or the same time. */
  lemma BlockWritesCommute(blocked: map<Key, int>, ip1: Key, ts1: int, t1: bool,
                           ip2: Key, ts2: int, t2: bool)
    requires ip1 != ip2 || ts1 == ts2
    ensures BlockWrite(BlockWrite(blocked, ip2, ts2, t2), ip1, ts1, t1) ==
            BlockWrite(BlockWrite(blocked, ip1, ts1, t1), ip2, ts2, t2)
  {
  }

  /** Each recorder's effect on the block table depends only on whether its own log
      trips, not on the block table it is given. */
  lemma RecordHitBlockWrite(log: map<Key, seq<int>>, blocked: map<Key, int>, ip: Key, ts: int,
                            window: int, threshold: nat)
    requires threshold > 0
    ensures RecordHit(log, blocked, ip, ts, window, threshold).blocked ==
            BlockWrite(blocked, ip, ts, Trips(log, ip, ts, window, threshold))
    ensures RecordHit(log, blocked, ip, ts, window, threshold).log ==
            RecordHit(log, map[], ip, ts, window, threshold).log
  {
  }

  /** The two signals are independent: recording one kind of hit and then the other
      gives the same state in either order, whenever the two hits concern different
      keys or happen at the same time. */
  lemma SignalsCommute(st: State, ip1: Key, ts1: int, ip2: Key, ts2: int)
    requires ip1 != ip2 || ts1 == ts2
    ensures RecordSuspicious(RecordSqlError(st, ip2, ts2), ip1, ts1) ==
            RecordSqlError(RecordSuspicious(st, ip1, ts1), ip2, ts2)
  {
    var t1 := Trips(st.suspicious, ip1, ts1, SuspiciousWindow, SuspiciousThreshold);
    var t2 := Trips(st.sqlErrors, ip2, ts2, SqlErrorWindow, SqlErrorThreshold);
    var h1 := RecordHit(st.suspicious, st.blocked, ip1, ts1, SuspiciousWindow, SuspiciousThreshold);
    var h2 := RecordHit(st.sqlErrors, st.blocked, ip2, ts2, SqlErrorWindow, SqlErrorThreshold);
    var g1 := RecordHit(st.suspicious, h2.blocked, ip1, ts1, SuspiciousWindow, SuspiciousThreshold);
    var g2 := RecordHit(st.sqlErrors, h1.blocked, ip2, ts2, SqlErrorWindow, SqlErrorThreshold);
    RecordHitBlockWrite(st.suspicious, st.blocked, ip1, ts1, SuspiciousWindow, SuspiciousThreshold);
    RecordHitBlockWrite(st.sqlErrors, st.blocked, ip2, ts2, SqlErrorWindow, SqlErrorThreshold);
    RecordHitBlockWrite(st.suspicious, h2.blocked, ip1, ts1, SuspiciousWindow, SuspiciousThreshold);
    RecordHitBlockWrite(st.sqlErrors, h1.blocked, ip2, ts2, SqlErrorWindow, SqlErrorThreshold);
    BlockWritesCommute(st.blocked, ip1, ts1, t1, ip2, ts2, t2);
    assert g1.blocked == g2.blocked;
    assert g1.log == h1.log && g2.log == h2.log;
    assert RecordSuspicious(RecordSqlError(st, ip2, ts2), ip1, ts1) == State(g1.log, h2.log, g1.blocked);
    assert RecordSqlError(RecordSuspicious(st, ip1, ts1), ip2, ts2) == State(h1.log, g2.log, g2.blocked);
  }

  /** `times` hits recorded in order against one key. */
  function RecordSuspiciousAll(st: State, ip: Key, times: seq<int>): State
  {
    if |times| == 0 then st
    else RecordSuspicious(RecordSuspiciousAll(st, ip, times[..|times| - 1]), ip, times[|times| - 1])
  }

  /** One step of a burst: when every earlier hit is inside the window of a new hit,
      the window keeps all of them and adds the new one. */
  lemma WindowKeepsRecentHits(log: map<Key, seq<int>>, ip: Key, hits: seq<int>, ts: int)
    requires HitsOf(log, ip) == hits
    requires forall i :: 0 <= i < |hits| ==> hits[i] >= ts - SuspiciousWindow
    ensures Recent(log, ip, ts, SuspiciousWindow) == hits + [ts]
  {
    PruneAllRecent(hits, ts - SuspiciousWindow);
    PruneAppendRecent(hits, ts, ts - SuspiciousWindow);
  }

  /** A hit whose window still holds every earlier hit: below the threshold it is
      appended; at the threshold it blocks the key. */
  lemma BurstStep(prev: State, ip: Key, hits: seq<int>, ts: int)
    requires HitsOf(prev.suspicious, ip) == hits
    requires |hits| < SuspiciousThreshold
    requires forall i :: 0 <= i < |hits| ==> hits[i] >= ts - SuspiciousWindow
    ensures var r := RecordSuspicious(prev, ip, ts);
            |hits| + 1 < SuspiciousThreshold ==> r.suspicious[ip] == hits + [ts] && r.blocked == prev.blocked
    ensures var r := RecordSuspicious(prev, ip, ts);
            |hits| + 1 == SuspiciousThreshold ==>
              r.suspicious[ip] == [] && r.blocked == prev.blocked[ip := ts + BlockTime]
  {
    WindowKeepsRecentHits(prev.suspicious, ip, hits, ts);
  }

  /** Dropping the last hit of an in-order burst leaves an in-order burst whose hits
      all lie in the dropped hit's window. */
  lemma BurstPrefix(times: seq<int>)
    requires NonDecreasing(times)
    requires 1 < |times|
    requires times[|times| - 1] - times[0] <= SuspiciousWindow
    ensures var init := times[..|times| - 1];
            && NonDecreasing(init)
            && init[|init| - 1] - init[0] <= SuspiciousWindow
            && forall i :: 0 <= i < |init| ==> init[i] >= times[|times| - 1] - SuspiciousWindow
  {
    var init := times[..|times| - 1];
    forall i | 0 <= i < |init|
      ensures init[i] >= times[|times| - 1] - SuspiciousWindow
    {
      assert times[0] <= times[i];
    }
  }

  /** The last hit of a burst, on top of the fold of the hits before it: when the fold
      stored exactly those hits and all of them lie in the last hit's window, the last
      hit is appended below the threshold and trips at it. */
  lemma BurstExtend(st: State, ip: Key, times: seq<int>)
    requires 0 < |times| <= SuspiciousThreshold
    requires HitsOf(RecordSuspiciousAll(st, ip, times[..|times| - 1]).suspicious, ip) == times[..|times| - 1]
    requires forall i :: 0 <= i < |times| - 1 ==> times[i] >= times[|times| - 1] - SuspiciousWindow
    ensures var prev := RecordSuspiciousAll(st, ip, times[..|times| - 1]);
            var r := RecordSuspiciousAll(st, ip, times);
            |times| < SuspiciousThreshold ==> r.suspicious[ip] == times && r.blocked == prev.blocked
    ensures var prev := RecordSuspiciousAll(st, ip, times[..|times| - 1]);
            var r := RecordSuspiciousAll(st, ip, times);
            |times| == SuspiciousThreshold ==>
              r.suspicious[ip] == [] && r.blocked == prev.blocked[ip := times[|times| - 1] + BlockTime]
  {
    var init := times[..|times| - 1];
    BurstStep(RecordSuspiciousAll(st, ip, init), ip, init, times[|times| - 1]);
    SplitLast(times);
  }

  /** A burst of fewer hits than the threshold from a clean key, in clock order and
      all within one window: the stored list is exactly the burst and no block is
      written. */
  lemma {:induction false} BurstBelowThreshold(st: State, ip: Key, times: seq<int>)
    requires HitsOf(st.suspicious, ip) == []
    requires NonDecreasing(times)
    requires 0 < |times| < SuspiciousThreshold
    requires times[|times| - 1] - times[0] <= SuspiciousWindow
    ensures ip in RecordSuspiciousAll(st, ip, times).suspicious
    ensures RecordSuspiciousAll(st, ip, times).suspicious[ip] == times
    ensures RecordSuspiciousAll(st, ip, times).blocked == st.blocked
  {
    var init := times[..|times| - 1];
    if |init| == 0 {
      assert RecordSuspiciousAll(st, ip, init) == st;
    } else {
      BurstPrefix(times);
      BurstBelowThreshold(st, ip, init);
    }
    BurstExtend(st, ip, times);
  }

  /** The threshold-th hit of such a burst blocks the key until that hit's time plus
      `BlockTime` and empties its list. */
  lemma BurstTripsAtThreshold(st: State, ip: Key, times: seq<int>)
    requires HitsOf(st.suspicious, ip) == []
    requires NonDecreasing(times)
    requires |times| == SuspiciousThreshold
    requires times[|times| - 1] - times[0] <= SuspiciousWindow
    ensures RecordSuspiciousAll(st, ip, times).suspicious[ip] == []
    ensures RecordSuspiciousAll(st, ip, times).blocked == st.blocked[ip := times[|times| - 1] + BlockTime]
  {
    var init := times[..|times| - 1];
    BurstPrefix(times);
    BurstBelowThreshold(st, ip, init);
    BurstExtend(st, ip, times);
  }
}
