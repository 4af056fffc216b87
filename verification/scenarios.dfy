/** Concrete runs of the engine and the handlers, with the service's constants. */
module Scenarios {
  import opened Window
  import opened Engine
  import opened Scanner
  import opened Handlers

  /** Five suspicious hits from any key at 0, 10, 20, 30 and 40 block it until 340:
      it is still blocked at 339 and free again at 340. Four hits block nothing. */
  lemma FiveHitsBlockUntil340(ip: Key)
    ensures RecordSuspiciousAll(Initial, ip, [0, 10, 20, 30]).blocked == map[]
    ensures RecordSuspiciousAll(Initial, ip, [0, 10, 20, 30, 40]).blocked == map[ip := 340]
    ensures IsBlocked(RecordSuspiciousAll(Initial, ip, [0, 10, 20, 30, 40]), ip, 339).refused
    ensures !IsBlocked(RecordSuspiciousAll(Initial, ip, [0, 10, 20, 30, 40]), ip, 340).refused
  {
    BurstBelowThreshold(Initial, ip, [0, 10, 20, 30]);
    BurstTripsAtThreshold(Initial, ip, [0, 10, 20, 30, 40]);
  }

  /** Four hits from any key at 0, 10, 20 and 30, then one at 100: the old hits have
      aged out, the count is one and there is no block. */
  lemma LateHitStartsFresh(ip: Key)
    ensures RecordSuspiciousAll(Initial, ip, [0, 10, 20, 30, 100]).suspicious[ip] == [100]
    ensures RecordSuspiciousAll(Initial, ip, [0, 10, 20, 30, 100]).blocked == map[]
  {
    var times := [0, 10, 20, 30, 100];
    var first := [0, 10, 20, 30];
    assert times[..4] == first;
    var four := RecordSuspiciousAll(Initial, ip, first);
    BurstBelowThreshold(Initial, ip, first);
    assert RecordSuspiciousAll(Initial, ip, times) == RecordSuspicious(four, ip, 100);
    assert HitsOf(four.suspicious, ip) == first;
    StaleHitsAgeOut(four, ip, 100);
  }

  /** Hosts the whitelist accepts and rejects. */
  lemma HostExamples()
    ensures ValidHost("example.com\n")
    ensures !ValidHost("")
    ensures !ValidHost("\n")
    ensures !ValidHost("a\n\n")
    ensures !ValidHost("a;b")
    ensures !ValidHost("a b")
    ensures ValidHost("a--b") && Flagged("a--b")
  {
    assert !AllHostChars("\n") by { assert !HostChar("\n"[0]); }
    assert !AllHostChars("a\n\n") by { assert !HostChar("a\n\n"[1]); }
    assert !AllHostChars(("a\n\n")[..2]) by { assert ("a\n\n")[..2][1] == '\n'; }
    assert !AllHostChars("a;b") by { assert !HostChar("a;b"[1]); }
    assert !AllHostChars("a b") by { assert !HostChar("a b"[1]); }
    assert TokenAt("a--b", 1);
    FlaggedMeansToken("a--b");
  }

  /** Values the scanner flags: a quote, a pipe, a block comment opener. */
  lemma ScannerFlagsTokens()
    ensures Flagged("x' OR '1'='1")
    ensures Flagged("a | b")
    ensures Flagged("/* c */")
  {
    assert TokenAt("x' OR '1'='1", 1);
    assert TokenAt("a | b", 2);
    assert TokenAt("/* c */", 0);
    FlaggedMeansToken("x' OR '1'='1");
    FlaggedMeansToken("a | b");
    FlaggedMeansToken("/* c */");
  }

  /** Lone halves of the two-character tokens are let through. */
  lemma ScannerPassesLoneHalves()
    ensures !Flagged("a&b-c/d*e")
  {
    var v := "a&b-c/d*e";
    assert forall i :: 0 <= i < |v| ==> v[i] in {'a', '&', 'b', '-', 'c', '/', 'd', '*', 'e'};
    assert forall i :: 0 <= i < |v| - 1 ==> v[i] in {'a', 'b', 'c', 'd', 'e'} || v[i + 1] in {'a', 'b', 'c', 'd', 'e'};
    LoneHalvesNotFlagged(v);
  }

  /** The scan reports the first flagged field in order, and nothing for clean input. */
  lemma ScanReportsFirstField()
    ensures CheckParams([("host", "ok"), ("ua", "a;b"), ("x", "'")]) == Match("ua", "a;b")
    ensures CheckParams([("host", ""), ("ua", "curl")]) == NoMatch
  {
    assert TokenAt("a;b", 1);
    FlaggedMeansToken("a;b");
    FlaggedMeansToken("ok");
    FlaggedMeansToken("curl");
    FlaggedMeansToken("");
    var f := [("host", "ok"), ("ua", "a;b"), ("x", "'")];
    assert !Flagged(f[0].1) && Flagged(f[1].1);
    assert FirstFlagged(f, 1) == At(1);
    var g := [("host", ""), ("ua", "curl")];
    assert !Flagged(g[0].1) && !Flagged(g[1].1);
  }

  /** A probe with an injected host from a key with no block entry is rejected with
      400 and counted as one suspicious hit. */
  lemma InjectedProbeCounts(st: State, ip: Key, now: int, host: string)
    requires ip !in st.blocked
    requires Flagged(host) && !ValidHost(host)
    ensures Ping(st, ip, now, Given(host), Absent, false) ==
            Reply(BadRequest, RecordSuspicious(st, ip, now))
  {
    PingScansHostFirst(host, "");
  }

  /** The engine state after a sequence of probe requests from `ip` with `host`. */
  function ProbeAll(st: State, ip: Key, times: seq<int>, host: string): State
  {
    if |times| == 0 then st
    else Ping(ProbeAll(st, ip, times[..|times| - 1], host), ip, times[|times| - 1],
              Given(host), Absent, false).state
  }

  /** A burst of probes with an injected host from a clean key counts exactly like the
      same burst of suspicious hits: each request is rejected but still counted. */
  lemma {:induction false} InjectedProbesAreHits(st: State, ip: Key, times: seq<int>, host: string)
    requires Flagged(host) && !ValidHost(host)
    requires ip !in st.blocked && HitsOf(st.suspicious, ip) == []
    requires NonDecreasing(times)
    requires 0 < |times| <= SuspiciousThreshold
    requires times[|times| - 1] - times[0] <= SuspiciousWindow
    ensures ProbeAll(st, ip, times, host) == RecordSuspiciousAll(st, ip, times)
  {
    var init := times[..|times| - 1];
    var last := times[|times| - 1];
    if |init| > 0 {
      assert NonDecreasing(init);
      assert times[0] <= init[|init| - 1] <= last;
      InjectedProbesAreHits(st, ip, init, host);
      BurstBelowThreshold(st, ip, init);
    }
    InjectedProbeCounts(RecordSuspiciousAll(st, ip, init), ip, last, host);
  }

  /** Five probe requests from any key with an injected host at 0, 10, 20, 30 and 40
      block the key until 340. */
  lemma InjectedProbesBlockUntil340(ip: Key, host: string)
    requires Flagged(host) && !ValidHost(host)
    ensures ProbeAll(Initial, ip, [0, 10, 20, 30, 40], host).blocked == map[ip := 340]
  {
    InjectedProbesAreHits(Initial, ip, [0, 10, 20, 30, 40], host);
    FiveHitsBlockUntil340(ip);
  }

  /** After those five probes a request at 41 is refused with 403 whatever it carries,
      and at 340 a plain probe is served again. */
  lemma InjectedProbesGetBlocked(ip: Key, host: string)
    requires Flagged(host) && !ValidHost(host)
    ensures Ping(ProbeAll(Initial, ip, [0, 10, 20, 30, 40], host), ip, 41, Absent, Absent, false).status
            == Forbidden
    ensures Ping(ProbeAll(Initial, ip, [0, 10, 20, 30, 40], host), ip, 340, Absent, Absent, false).status
            == Ok
  {
    var s5 := ProbeAll(Initial, ip, [0, 10, 20, 30, 40], host);
    InjectedProbesBlockUntil340(ip, host);
    PlainProbeServed(s5, ip, 340);
  }

  /** The probe scenario with a host carrying a command separator. */
  lemma SemicolonHostProbesGetBlocked(ip: Key)
    ensures Ping(ProbeAll(Initial, ip, [0, 10, 20, 30, 40], "a;b"), ip, 41, Absent, Absent, false).status
            == Forbidden
  {
    assert TokenAt("a;b", 1);
    FlaggedMeansToken("a;b");
    assert !ValidHost("a;b") by { assert !HostChar("a;b"[1]); }
    InjectedProbesGetBlocked(ip, "a;b");
  }

  /** A username carrying a quote is still a valid username: the lookup is served,
      and the quote is counted as a suspicious hit all the same. */
  lemma QuotedUsernameServedAndCounted(st: State, ip: Key, now: int)
    requires !BlockedAt(st.blocked, ip, now)
    ensures User(st, ip, now, Given("o'brien"), Absent, false, false)
            == Reply(Ok, RecordSuspicious(IsBlocked(st, ip, now).state, ip, now))
  {
    assert TokenAt("o'brien", 1);
    FlaggedMeansToken("o'brien");
  }
}
