/** The request decisions of the hardened service: each handler asks the gate, then
    scans and records suspicious input, then validates, and only then does its work.
    The work itself (spawning the probe, running the query) is outside the model; its
    only observable effect here is whether it raised, passed in as a flag. */
module Handlers {
  import opened Engine
  import opened Scanner

  /** A request argument or header: absent, or given with its text. */
  datatype Arg = Absent | Given(text: string) {

    /** The text, or `default` when the argument is absent (`dict.get(key, default)`). */
    function ValueOr(default: string): string
    {
      if Given? then text else default
    }
  }

  const DefaultHost: string := "127.0.0.1"
  const MaxHostLength: nat := 100
  const MaxUsernameLength: nat := 50

  /** The response a handler sends: 200, 400, 403 or 500. */
  datatype Status = Ok | BadRequest | Forbidden | ServerError

  /** A response status together with the engine state after the request. */
  datatype Reply = Reply(status: Status, state: State)

  /** The host character class: ASCII letters, digits, dot and dash. */
  predicate HostChar(c: char)
  {
    ('A' <= c <= 'Z') || ('a' <= c <= 'z') || ('0' <= c <= '9') || c == '.' || c == '-'
  }

  predicate AllHostChars(s: string)
  {
    forall i :: 0 <= i < |s| ==> HostChar(s[i])
  }

  /** The anchored whitelist pattern: one or more host characters up to the end, where
      the end anchor also matches just before a single final newline. */
  predicate HostPattern(s: string)
  {
    || (|s| > 0 && AllHostChars(s))
    || (|s| > 1 && s[|s| - 1] == '\n' && AllHostChars(s[..|s| - 1]))
  }

  /** How the pattern is matched: consume the longest run of host characters from the
      start, then require that the run is non-empty and is followed by nothing, or by
      one newline and nothing. */
  method MatchHost(s: string) returns (m: bool)
    ensures m <==> HostPattern(s)
  {
    var k := 0;
    while k < |s| && HostChar(s[k])
      invariant 0 <= k <= |s|
      invariant AllHostChars(s[..k])
    {
      k := k + 1;
    }
    m := k > 0 && (k == |s| || (k == |s| - 1 && s[k] == '\n'));
    if k < |s| && !(k == |s| - 1 && s[k] == '\n') {
      assert !HostChar(s[k]);
    }
    assert s[..|s|] == s;
  }

  /** A host is accepted when it matches the whitelist and is at most 100 characters
      long, the trailing newline counted. */
  predicate ValidHost(h: string)
  {
    HostPattern(h) && |h| <= MaxHostLength
  }

  /** A username is accepted when it is non-empty and at most 50 characters long. */
  predicate ValidUsername(u: string)
  {
    |u| > 0 && |u| <= MaxUsernameLength
  }

  /** The fields each handler scans, in the order it scans them. */
  function PingFields(host: string, ua: string): seq<(string, string)>
  {
    [("host", host), ("ua", ua)]
  }

  function UserFields(username: string, ua: string): seq<(string, string)>
  {
    [("username", username), ("ua", ua)]
  }

  /** The state after the scan step: a suspicious hit at `now` if a field matched. */
  function AfterScan(st: State, ip: Key, now: int, scan: ScanResult): State
  {
    if scan.Match? then RecordSuspicious(st, ip, now) else st
  }

  /** The network probe handler. `host` and `ua` are the request's arguments (absent
      ones take their defaults); `spawnRaises` says whether starting the probe raised. */
  function Ping(st: State, ip: Key, now: int, host: Arg, ua: Arg,
                spawnRaises: bool): (r: Reply)
    ensures r.status == Forbidden <==> BlockedAt(st.blocked, ip, now)
    ensures r.status == Forbidden ==> r.state == st
    ensures r.status == BadRequest <==>
              !BlockedAt(st.blocked, ip, now) && !ValidHost(host.ValueOr(DefaultHost))
    ensures r.status == ServerError <==>
              !BlockedAt(st.blocked, ip, now) && ValidHost(host.ValueOr(DefaultHost)) && spawnRaises
    ensures r.state.sqlErrors == st.sqlErrors
    ensures !BlockedAt(st.blocked, ip, now) &&
            (Flagged(host.ValueOr(DefaultHost)) || Flagged(ua.ValueOr(""))) ==>
              r.state == RecordSuspicious(IsBlocked(st, ip, now).state, ip, now)
    ensures !BlockedAt(st.blocked, ip, now) &&
            !Flagged(host.ValueOr(DefaultHost)) && !Flagged(ua.ValueOr("")) ==>
              r.state == IsBlocked(st, ip, now).state
  {
    var gate := IsBlocked(st, ip, now);
    if gate.refused then Reply(Forbidden, gate.state)
    else
      var h := host.ValueOr(DefaultHost);
      var u := ua.ValueOr("");
      PingScansHostFirst(h, u);
      var st' := AfterScan(gate.state, ip, now, CheckParams(PingFields(h, u)));
      if !ValidHost(h) then Reply(BadRequest, st')
      else if spawnRaises then Reply(ServerError, st')
      else Reply(Ok, st')
  }

  /** The user lookup handler. `connectRaises` says whether opening the database
      raised: that happens before the query's error handler, so the request fails with
      500 and no backend error is recorded. `queryRaises` says whether running the
      query raised, which is caught and counted as a backend error. */
  function User(st: State, ip: Key, now: int, username: Arg, ua: Arg,
                connectRaises: bool, queryRaises: bool): (r: Reply)
    ensures r.status == Forbidden <==> BlockedAt(st.blocked, ip, now)
    ensures r.status == Forbidden ==> r.state == st
    ensures r.status == BadRequest <==>
              !BlockedAt(st.blocked, ip, now) && !ValidUsername(username.ValueOr(""))
    ensures r.status == ServerError <==>
              !BlockedAt(st.blocked, ip, now) && ValidUsername(username.ValueOr("")) &&
              (connectRaises || queryRaises)
    ensures r.status != ServerError || connectRaises ==> r.state.sqlErrors == st.sqlErrors
    ensures r.status == ServerError && !connectRaises ==>
              ip in r.state.sqlErrors && (now in r.state.sqlErrors[ip] || r.state.sqlErrors[ip] == [])
    ensures !BlockedAt(st.blocked, ip, now) &&
            (Flagged(username.ValueOr("")) || Flagged(ua.ValueOr(""))) ==>
              r.state.suspicious == RecordSuspicious(IsBlocked(st, ip, now).state, ip, now).suspicious
    ensures !BlockedAt(st.blocked, ip, now) &&
            !Flagged(username.ValueOr("")) && !Flagged(ua.ValueOr("")) ==>
              r.state.suspicious == st.suspicious
    ensures !BlockedAt(st.blocked, ip, now) &&
            !(ValidUsername(username.ValueOr("")) && !connectRaises && queryRaises) &&
            (Flagged(username.ValueOr("")) || Flagged(ua.ValueOr(""))) ==>
              r.state == RecordSuspicious(IsBlocked(st, ip, now).state, ip, now)
    ensures !BlockedAt(st.blocked, ip, now) &&
            !(ValidUsername(username.ValueOr("")) && !connectRaises && queryRaises) &&
            !Flagged(username.ValueOr("")) && !Flagged(ua.ValueOr("")) ==>
              r.state == IsBlocked(st, ip, now).state
  {
    var gate := IsBlocked(st, ip, now);
    if gate.refused then Reply(Forbidden, gate.state)
    else
      var n := username.ValueOr("");
      var u := ua.ValueOr("");
      UserScansUsernameFirst(n, u);
      var st' := AfterScan(gate.state, ip, now, CheckParams(UserFields(n, u)));
      if !ValidUsername(n) then Reply(BadRequest, st')
      else if connectRaises then Reply(ServerError, st')
      else if queryRaises then Reply(ServerError, RecordSqlError(st', ip, now))
      else Reply(Ok, st')
  }

  // ---------------------------------------------------------------------------
  // Properties of the handlers

  /** The probe scans the host before the client string: the reported field is the
      host whenever the host is flagged. */
  lemma PingScansHostFirst(h: string, u: string)
    ensures Flagged(h) ==> CheckParams(PingFields(h, u)) == Match("host", h)
    ensures !Flagged(h) && Flagged(u) ==> CheckParams(PingFields(h, u)) == Match("ua", u)
    ensures !Flagged(h) && !Flagged(u) ==> CheckParams(PingFields(h, u)) == NoMatch
  {
    var f := PingFields(h, u);
    if !Flagged(h) && Flagged(u) {
      assert FirstFlagged(f, 1) == At(1);
    }
  }

  /** The lookup scans the username before the client string. */
  lemma UserScansUsernameFirst(n: string, u: string)
    ensures Flagged(n) ==> CheckParams(UserFields(n, u)) == Match("username", n)
    ensures !Flagged(n) && Flagged(u) ==> CheckParams(UserFields(n, u)) == Match("ua", u)
    ensures !Flagged(n) && !Flagged(u) ==> CheckParams(UserFields(n, u)) == NoMatch
  {
    var f := UserFields(n, u);
    if !Flagged(n) && Flagged(u) {
      assert FirstFlagged(f, 1) == At(1);
    }
  }

  /** A probe request from a key that is not blocked records a suspicious hit exactly
      when its host or client string is flagged, before the host is validated, so a
      request then rejected with 400 still counts; an unflagged request leaves the hit
      logs as they were. */
  lemma PingRecordsBeforeValidating(st: State, ip: Key, now: int, host: Arg,
                                    ua: Arg, spawnRaises: bool)
    requires !BlockedAt(st.blocked, ip, now)
    ensures var r := Ping(st, ip, now, host, ua, spawnRaises);
            Flagged(host.ValueOr(DefaultHost)) || Flagged(ua.ValueOr("")) ==>
              r.state == RecordSuspicious(IsBlocked(st, ip, now).state, ip, now)
    ensures var r := Ping(st, ip, now, host, ua, spawnRaises);
            !Flagged(host.ValueOr(DefaultHost)) && !Flagged(ua.ValueOr("")) ==>
              r.state == IsBlocked(st, ip, now).state
  {
    PingScansHostFirst(host.ValueOr(DefaultHost), ua.ValueOr(""));
  }

  /** The same order in the lookup: the scan records before the username is checked. */
  lemma UserRecordsBeforeValidating(st: State, ip: Key, now: int, username: Arg,
                                    ua: Arg, connectRaises: bool, queryRaises: bool)
    requires !BlockedAt(st.blocked, ip, now)
    requires !ValidUsername(username.ValueOr(""))
    ensures var r := User(st, ip, now, username, ua, connectRaises, queryRaises);
            r.status == BadRequest &&
            (Flagged(username.ValueOr("")) || Flagged(ua.ValueOr("")) ==>
               r.state == RecordSuspicious(IsBlocked(st, ip, now).state, ip, now))
  {
    UserScansUsernameFirst(username.ValueOr(""), ua.ValueOr(""));
  }

  /** The default probe target is an accepted host. */
  lemma DefaultHostAccepted()
    ensures ValidHost(DefaultHost)
    ensures !Flagged(DefaultHost)
  {
    var h := DefaultHost;
    assert forall i :: 0 <= i < |h| ==> h[i] in "127.0.0.1";
    assert forall c :: c in "127.0.0.1" ==> HostChar(c) && !TokenChar(c) && c != '-';
    FlaggedMeansToken(h);
  }

  /** A lookup whose query raises records one backend error for the key, after the
      scan step; a lookup whose query succeeds records none; a lookup whose database
      cannot be opened fails with 500 and records none either. */
  lemma FailedQueryCountsError(st: State, ip: Key, now: int, username: Arg,
                               ua: Arg, connectRaises: bool, queryRaises: bool)
    requires !BlockedAt(st.blocked, ip, now)
    requires ValidUsername(username.ValueOr(""))
    ensures var r := User(st, ip, now, username, ua, connectRaises, queryRaises);
            !connectRaises && queryRaises ==>
              r.state == RecordSqlError(
                AfterScan(IsBlocked(st, ip, now).state, ip, now,
                          CheckParams(UserFields(username.ValueOr(""), ua.ValueOr("")))),
                ip, now)
    ensures var r := User(st, ip, now, username, ua, connectRaises, queryRaises);
            connectRaises ==>
              r.status == ServerError &&
              r.state == AfterScan(IsBlocked(st, ip, now).state, ip, now,
                                   CheckParams(UserFields(username.ValueOr(""), ua.ValueOr(""))))
    ensures var r := User(st, ip, now, username, ua, connectRaises, queryRaises);
            !connectRaises && !queryRaises ==> r.status == Ok && r.state.sqlErrors == st.sqlErrors
  {
  }

  /** A plain probe (default host, no client string) from a key that is not blocked is
      served, unless starting the probe raises. */
  lemma PlainProbeServed(st: State, ip: Key, now: int)
    requires !BlockedAt(st.blocked, ip, now)
    ensures Ping(st, ip, now, Absent, Absent, false).status == Ok
    ensures Ping(st, ip, now, Absent, Absent, false).state.suspicious == st.suspicious
  {
    DefaultHostAccepted();
    PingScansHostFirst(DefaultHost, "");
    FlaggedMeansToken("");
  }

  /** An accepted host carries none of the quote, semicolon, pipe, ampersand, slash or
      star characters. */
  lemma ValidHostHasNoShellCharacters(h: string)
    requires ValidHost(h)
    ensures forall i :: 0 <= i < |h| ==>
              h[i] !in {'\'', '"', ';', '|', '&', '/', '*'}
  {
    if |h| > 1 && h[|h| - 1] == '\n' && !AllHostChars(h) {
      var w := h[..|h| - 1];
      assert forall i :: 0 <= i < |w| ==> h[i] == w[i];
    }
  }

  /** The only token an accepted host can carry is the double dash. */
  lemma ValidHostFlaggedOnlyByDoubleDash(h: string)
    requires ValidHost(h)
    ensures Flagged(h) <==> exists i :: 0 <= i < |h| - 1 && h[i] == '-' && h[i + 1] == '-'
  {
    ValidHostHasNoShellCharacters(h);
    FlaggedMeansToken(h);
    if Flagged(h) {
      var i :| 0 <= i < |h| && TokenAt(h, i);
      assert h[i] == '-' && h[i + 1] == '-';
    }
    if exists i :: 0 <= i < |h| - 1 && h[i] == '-' && h[i + 1] == '-' {
      var i :| 0 <= i < |h| - 1 && h[i] == '-' && h[i + 1] == '-';
      assert TokenAt(h, i);
    }
  }
}
