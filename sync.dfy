/** One synchronisation cycle of src/index.ts (`sync`) and its failure isolation (`runSync`).
    The browser login, the HTTP server and the JSON parser are collaborators whose outcomes
    are given by an oracle; the session slot and the table are the objects the cycle updates. */
module Sync {
  import opened Wrappers
  import opened JsNumbers
  import opened Auth
  import opened Api
  import opened Db

  /** The look-back used when the table is empty: 24 hours. */
  const DayMs: int := 24 * 60 * 60 * 1000

  /** The collaborators a cycle talks to: the browser's outcome for the k-th login, the
      server's response to the k-th fetch, and the payload decoder (UTF-8 plus `JSON.parse`). */
  datatype Oracle = Oracle(browser: nat -> BrowserResult, server: nat -> HttpResponse, decode: PayloadDecoder)

  /** What the cycle sees of its collaborators: the outcome of the k-th `login()` and the
      response to the k-th fetch. */
  datatype Script = Script(login: nat -> Result<AuthToken, AuthError>, server: nat -> HttpResponse)

  /** The script the collaborators play: the k-th login is the browser's k-th outcome followed
      by token extraction. */
  function ScriptOf(o: Oracle): (s: Script)
    ensures forall k :: s.login(k) == LoginOutcome(o.browser(k), o.decode)
    ensures s.server == o.server
  {
    Script((k: nat) => LoginOutcome(o.browser(k), o.decode), o.server)
  }

  /** The collaborator calls a cycle makes, in order. */
  datatype Call =
    | LoginCall
    | ReadMarkCall
    | FetchCall(token: AuthToken, start: int, end: int)
    | ClearCall
    | InsertCall(points: seq<HeartRatePoint>, userId: JsNum)

  datatype CallKind = LoginKind | ReadMarkKind | FetchKind | ClearKind | InsertKind

  datatype SyncError = AuthFailed(auth: AuthError) | FetchFailed(fetch: FetchError)

  /** What the cycle logs on success: points fetched and rows inserted. */
  datatype SyncReport = SyncReport(fetched: nat, inserted: nat)

  /** The collaborators' answers in steps 3 and 4: the first fetch, the re-login that an
      `AuthExpired` triggers, and the second fetch. */
  datatype Replies = Replies(first: Result<seq<HeartRatePoint>, FetchError>,
                             relogin: Result<AuthToken, AuthError>,
                             second: Result<seq<HeartRatePoint>, FetchError>)

  /** The replies steps 3 and 4 get when `logins` logins were already made in the cycle. */
  function RepliesOf(s: Script, logins: nat): (r: Replies)
    ensures r.first == Classify(s.server(0)) && r.second == Classify(s.server(1))
    ensures r.relogin == s.login(logins)
  {
    Replies(Classify(s.server(0)), s.login(logins), Classify(s.server(1)))
  }

  /** A cycle's calls, its outcome, and the session slot and table it leaves behind. */
  datatype Cycle = Cycle(calls: seq<Call>, outcome: Result<SyncReport, SyncError>, cache: Option<AuthToken>, rows: seq<Row>)

  function KindOf(c: Call): CallKind {
    match c
    case LoginCall => LoginKind
    case ReadMarkCall => ReadMarkKind
    case FetchCall(_, _, _) => FetchKind
    case ClearCall => ClearKind
    case InsertCall(_, _) => InsertKind
  }

  function CountKind(calls: seq<Call>, k: CallKind): nat {
    if calls == [] then 0 else (if KindOf(calls[0]) == k then 1 else 0) + CountKind(calls[1..], k)
  }

  lemma {:induction false} CountKindAppend(a: seq<Call>, b: seq<Call>, k: CallKind)
    ensures CountKind(a + b, k) == CountKind(a, k) + CountKind(b, k)
  {
    if a != [] {
      assert (a + b)[1..] == a[1..] + b;
      CountKindAppend(a[1..], b, k);
    } else {
      assert a + b == b;
    }
  }

  /** The window's lower bound: the high-water mark when there is one, else 24 hours ago. */
  function WindowStart(rows: seq<Row>, now: int): int {
    match MaxTime(rows)
    case Some(m) => m
    case None => now - DayMs
  }

  /** Step 4: skip the insert for an empty fetch, else insert every point for the token's user. */
  function Store(calls: seq<Call>, points: seq<HeartRatePoint>, token: AuthToken, cache: Option<AuthToken>, rows: seq<Row>): Cycle {
    if |points| == 0 then Cycle(calls, Success(SyncReport(0, 0)), cache, rows)
    else
      var after := ConflictSkip(rows, RowsFor(points, token.userId));
      Cycle(calls + [InsertCall(points, token.userId)], Success(SyncReport(|points|, |after| - |rows|)), cache, after)
  }

  /** Step 3: fetch the window; on `AuthExpired` only, clear the slot, log in again and fetch
      the same window once more. `r` holds the collaborators' replies. */
  function FetchAndStore(calls: seq<Call>, token: AuthToken, cache: Option<AuthToken>, rows: seq<Row>,
                         start: int, now: int, r: Replies): Cycle {
    var fetched := calls + [FetchCall(token, start, now)];
    var first := r.first;
    if first.Success? then Store(fetched, first.value, token, cache, rows)
    else if !first.error.AuthExpired? then Cycle(fetched, Failure(FetchFailed(first.error)), cache, rows)
    else
      var relogged := fetched + [ClearCall, LoginCall];
      var login := r.relogin;
      if login.Failure? then Cycle(relogged, Failure(AuthFailed(login.error)), SlotAfterLogin(None, login), rows)
      else
        var refetched := relogged + [FetchCall(login.value, start, now)];
        var second := r.second;
        if second.Failure? then Cycle(refetched, Failure(FetchFailed(second.error)), Some(login.value), rows)
        else Store(refetched, second.value, login.value, Some(login.value), rows)
  }

  /** One cycle of `sync()` from the slot `cache` and the table `rows` at time `now`. */
  function SyncSpec(cache: Option<AuthToken>, rows: seq<Row>, now: int, s: Script): Cycle {
    var cached := GetToken(cache, now);
    if cached.Some? then FetchAndStore([ReadMarkCall], cached.value, cache, rows, WindowStart(rows, now), now, RepliesOf(s, 0))
    else
      var login := s.login(0);
      if login.Failure? then Cycle([LoginCall], Failure(AuthFailed(login.error)), SlotAfterLogin(cache, login), rows)
      else FetchAndStore([LoginCall, ReadMarkCall], login.value, Some(login.value), rows, WindowStart(rows, now), now, RepliesOf(s, 1))
  }

  /** Every fetch of a cycle asks for the same window: from the high-water mark (or 24 hours
      before `now` on an empty table) to `now`. */
  lemma WindowStartIsMarkOrDayBefore(rows: seq<Row>, now: int)
    ensures rows == [] ==> WindowStart(rows, now) == now - DayMs
    ensures rows != [] ==> (exists i :: 0 <= i < |rows| && rows[i].time == WindowStart(rows, now))
                           && forall i :: 0 <= i < |rows| ==> rows[i].time <= WindowStart(rows, now)
  {
    if rows != [] {
      var m := MaxTime(rows);
      assert m.Some? && WindowStart(rows, now) == m.value;
    }
  }

  /** Steps 3-4 begin with the fetch of the window with the token in hand. */
  lemma FetchAndStoreFetchesFirst(calls: seq<Call>, token: AuthToken, cache: Option<AuthToken>, rows: seq<Row>,
                                  start: int, now: int, r: Replies)
    ensures var c := FetchAndStore(calls, token, cache, rows, start, now, r);
      |c.calls| > |calls| && c.calls[..|calls| + 1] == calls + [FetchCall(token, start, now)]
  {
    var fetched := calls + [FetchCall(token, start, now)];
    var c := FetchAndStore(calls, token, cache, rows, start, now, r);
    assert exists tail :: c.calls == fetched + tail by {
      var first := r.first;
      if first.Success? {
        StoreExtends(fetched, first.value, token, cache, rows);
      } else if first.error.AuthExpired? {
        var login := r.relogin;
        var relogged := fetched + [ClearCall, LoginCall];
        if login.Failure? {
          assert c.calls == fetched + [ClearCall, LoginCall];
        } else {
          var refetched := relogged + [FetchCall(login.value, start, now)];
          assert refetched == fetched + [ClearCall, LoginCall, FetchCall(login.value, start, now)];
          var second := r.second;
          if second.Failure? {
            assert c.calls == refetched;
          } else {
            StoreExtends(refetched, second.value, login.value, Some(login.value), rows);
            var tail :| c.calls == refetched + tail;
            assert c.calls == fetched + ([ClearCall, LoginCall, FetchCall(login.value, start, now)] + tail);
          }
        }
      } else {
        assert c.calls == fetched + [];
      }
    }
    var tail :| c.calls == fetched + tail;
    assert c.calls[..|fetched|] == fetched;
  }

  /** Step 4 only appends to the calls made so far. */
  lemma StoreExtends(calls: seq<Call>, points: seq<HeartRatePoint>, token: AuthToken, cache: Option<AuthToken>, rows: seq<Row>)
    ensures exists tail :: Store(calls, points, token, cache, rows).calls == calls + tail
  {
    if |points| == 0 {
      assert Store(calls, points, token, cache, rows).calls == calls + [];
    }
  }

  /** A usable cached token is reused: the cycle reads the mark and fetches with that token
      before any login. */
  lemma SyncReusesCachedToken(cache: Option<AuthToken>, rows: seq<Row>, now: int, s: Script)
    requires GetToken(cache, now).Some?
    ensures var c := SyncSpec(cache, rows, now, s);
      |c.calls| >= 2 && c.calls[0] == ReadMarkCall
      && c.calls[1] == FetchCall(cache.value, WindowStart(rows, now), now)
  {
    FetchAndStoreFetchesFirst([ReadMarkCall], cache.value, cache, rows, WindowStart(rows, now), now, RepliesOf(s, 0));
  }

  /** Without a usable token the cycle logs in exactly once before anything else; a failed
      login ends the cycle at once with the table untouched, and with the slot untouched
      unless the login had already cached its token before throwing. */
  lemma SyncLogsInWithoutToken(cache: Option<AuthToken>, rows: seq<Row>, now: int, s: Script)
    requires GetToken(cache, now).None?
    ensures var c := SyncSpec(cache, rows, now, s);
      c.calls[0] == LoginCall
      && (s.login(0).Failure? ==>
            c == Cycle([LoginCall], Failure(AuthFailed(s.login(0).error)), SlotAfterLogin(cache, s.login(0)), rows)
            && (s.login(0).error.InvalidTimeValue? ==> c.cache == Some(s.login(0).error.token))
            && (!s.login(0).error.InvalidTimeValue? ==> c.cache == cache))
      && (s.login(0).Success? ==>
            |c.calls| >= 3 && c.calls[1] == ReadMarkCall
            && c.calls[2] == FetchCall(s.login(0).value, WindowStart(rows, now), now))
  {
    var login := s.login(0);
    if login.Success? {
      var start := WindowStart(rows, now);
      var c := FetchAndStore([LoginCall, ReadMarkCall], login.value, Some(login.value), rows, start, now, RepliesOf(s, 1));
      assert SyncSpec(cache, rows, now, s) == c;
      FetchAndStoreFetchesFirst([LoginCall, ReadMarkCall], login.value, Some(login.value), rows, start, now, RepliesOf(s, 1));
      assert c.calls[..3] == [LoginCall, ReadMarkCall, FetchCall(login.value, start, now)];
    } else {
      assert SyncSpec(cache, rows, now, s) == Cycle([LoginCall], Failure(AuthFailed(login.error)), SlotAfterLogin(cache, login), rows);
    }
  }

  /** A login that cached a token and then threw while logging its expiry fails the cycle but
      leaves the token in the slot. When that expiry is NaN, or lies beyond the `Date` range,
      the token never expires at any clock reading inside the range, so the next cycle reuses
      it without logging in. */
  lemma UnloggableTokenIsReused(cache: Option<AuthToken>, rows: seq<Row>, now: int, s: Script, later: int, s2: Script)
    requires GetToken(cache, now).None?
    requires s.login(0).Failure? && s.login(0).error.InvalidTimeValue?
    requires var t := s.login(0).error.token; t.expiresAt.NaN? || t.expiresAt.value > MaxDateMs
    requires later <= MaxDateMs - SafetyMarginMs
    ensures var t := s.login(0).error.token;
      var c := SyncSpec(cache, rows, now, s);
      c == Cycle([LoginCall], Failure(AuthFailed(InvalidTimeValue(t))), Some(t), rows)
      && var c2 := SyncSpec(c.cache, c.rows, later, s2);
      |c2.calls| >= 2 && c2.calls[0] == ReadMarkCall && c2.calls[1] == FetchCall(t, WindowStart(rows, later), later)
  {
    var t := s.login(0).error.token;
    assert SyncSpec(cache, rows, now, s) == Cycle([LoginCall], Failure(AuthFailed(InvalidTimeValue(t))), Some(t), rows);
    assert GetToken(Some(t), later) == Some(t);
    SyncReusesCachedToken(Some(t), rows, later, s2);
  }

  /** On `AuthExpired` from the first fetch: clear, log in, and fetch the identical window with
      the new token. A failed re-login ends the cycle with an empty slot, unless it had already
      cached its token before throwing. */
  lemma RetryAfterAuthExpired(calls: seq<Call>, token: AuthToken, cache: Option<AuthToken>, rows: seq<Row>,
                              start: int, now: int, r: Replies)
    requires r.first == Failure(AuthExpired)
    ensures var c := FetchAndStore(calls, token, cache, rows, start, now, r);
      var login := r.relogin;
      |c.calls| >= |calls| + 3
      && c.calls[|calls|..|calls| + 3] == [FetchCall(token, start, now), ClearCall, LoginCall]
      && (login.Failure? ==> c.outcome == Failure(AuthFailed(login.error)) && |c.calls| == |calls| + 3
                             && c.cache == (if login.error.InvalidTimeValue? then Some(login.error.token) else None))
      && (login.Success? ==> |c.calls| >= |calls| + 4 && c.calls[|calls| + 3] == FetchCall(login.value, start, now)
                             && c.cache == Some(login.value))
  {
    var c := FetchAndStore(calls, token, cache, rows, start, now, r);
    var login := r.relogin;
    var relogged := calls + [FetchCall(token, start, now)] + [ClearCall, LoginCall];
    assert relogged[|calls|..|calls| + 3] == [FetchCall(token, start, now), ClearCall, LoginCall];
    if login.Success? {
      var refetched := relogged + [FetchCall(login.value, start, now)];
      assert c.calls[..|refetched|] == refetched;
      assert c.calls[|calls|..|calls| + 3] == refetched[|calls|..|calls| + 3] == relogged[|calls|..|calls| + 3];
    }
  }

  /** Any other failure of the first fetch ends the cycle: no retry, no insert, slot and table as they were. */
  lemma NoRetryOnOtherErrors(calls: seq<Call>, token: AuthToken, cache: Option<AuthToken>, rows: seq<Row>,
                             start: int, now: int, r: Replies)
    requires r.first.Failure? && r.first.error != AuthExpired
    ensures FetchAndStore(calls, token, cache, rows, start, now, r)
         == Cycle(calls + [FetchCall(token, start, now)], Failure(FetchFailed(r.first.error)), cache, rows)
  {
  }

  lemma {:induction false} StoreCounts(calls: seq<Call>, points: seq<HeartRatePoint>, token: AuthToken, cache: Option<AuthToken>, rows: seq<Row>)
    ensures var c := Store(calls, points, token, cache, rows);
      CountKind(c.calls, LoginKind) == CountKind(calls, LoginKind)
      && CountKind(c.calls, FetchKind) == CountKind(calls, FetchKind)
      && CountKind(c.calls, ClearKind) == CountKind(calls, ClearKind)
      && CountKind(c.calls, InsertKind) <= CountKind(calls, InsertKind) + 1
  {
    if |points| > 0 {
      CountKindAppend(calls, [InsertCall(points, token.userId)], LoginKind);
      CountKindAppend(calls, [InsertCall(points, token.userId)], FetchKind);
      CountKindAppend(calls, [InsertCall(points, token.userId)], ClearKind);
      CountKindAppend(calls, [InsertCall(points, token.userId)], InsertKind);
    }
  }

  lemma {:induction false} FetchAndStoreCounts(calls: seq<Call>, token: AuthToken, cache: Option<AuthToken>, rows: seq<Row>,
                                               start: int, now: int, r: Replies)
    ensures var c := FetchAndStore(calls, token, cache, rows, start, now, r);
      CountKind(c.calls, LoginKind) <= CountKind(calls, LoginKind) + 1
      && CountKind(c.calls, FetchKind) <= CountKind(calls, FetchKind) + 2
      && CountKind(c.calls, ClearKind) <= CountKind(calls, ClearKind) + 1
      && CountKind(c.calls, InsertKind) <= CountKind(calls, InsertKind) + 1
  {
    var fetched := calls + [FetchCall(token, start, now)];
    var relogged := fetched + [ClearCall, LoginCall];
    forall k: CallKind ensures CountKind(fetched, k) == CountKind(calls, k) + (if k == FetchKind then 1 else 0)
                           && CountKind(relogged, k) == CountKind(fetched, k) + (if k == ClearKind || k == LoginKind then 1 else 0) {
      CountKindAppend(calls, [FetchCall(token, start, now)], k);
      CountKindAppend(fetched, [ClearCall, LoginCall], k);
    }
    var first := r.first;
    if first.Success? {
      StoreCounts(fetched, first.value, token, cache, rows);
    } else if first.error.AuthExpired? {
      var login := r.relogin;
      if login.Success? {
        var refetched := relogged + [FetchCall(login.value, start, now)];
        forall k: CallKind ensures CountKind(refetched, k) == CountKind(relogged, k) + (if k == FetchKind then 1 else 0) {
          CountKindAppend(relogged, [FetchCall(login.value, start, now)], k);
        }
        var second := r.second;
        if second.Success? {
          StoreCounts(refetched, second.value, login.value, Some(login.value), rows);
        }
      }
    }
  }

  /** The side effects of a cycle are bounded: at most two logins, two fetches, one clear
      and one insert. */
  lemma SyncCallBounds(cache: Option<AuthToken>, rows: seq<Row>, now: int, s: Script)
    ensures var c := SyncSpec(cache, rows, now, s);
      CountKind(c.calls, LoginKind) <= 2 && CountKind(c.calls, FetchKind) <= 2
      && CountKind(c.calls, ClearKind) <= 1 && CountKind(c.calls, InsertKind) <= 1
  {
    var start := WindowStart(rows, now);
    var cached := GetToken(cache, now);
    if cached.Some? {
      FetchAndStoreCounts([ReadMarkCall], cached.value, cache, rows, start, now, RepliesOf(s, 0));
    } else {
      var login := s.login(0);
      if login.Success? {
        FetchAndStoreCounts([LoginCall, ReadMarkCall], login.value, Some(login.value), rows, start, now, RepliesOf(s, 1));
      }
    }
  }

  predicate NoInsert(calls: seq<Call>) {
    forall i :: 0 <= i < |calls| ==> !calls[i].InsertCall?
  }

  /** What a cycle leaves, read against the table `rows` it started from: a failure or an
      empty fetch writes nothing and makes no insert; otherwise the one insert is the last call,
      right after the fetch whose points and token it uses (the first fetch's points when it
      succeeded, otherwise the retry's), that token is the one in the slot, and the table grows by exactly the rows not yet present, which the report counts. */
  ghost predicate InsertsAsFetched(c: Cycle, rows: seq<Row>, r: Replies) {
    (c.outcome.Failure? || c.outcome.value.fetched == 0 ==> c.rows == rows && NoInsert(c.calls))
    && (c.outcome.Success? ==> c.outcome.value.inserted <= c.outcome.value.fetched)
    && (c.outcome.Success? && c.outcome.value.fetched > 0 ==>
          var last := |c.calls| - 1;
          last >= 1 && NoInsert(c.calls[..last])
          && c.calls[last - 1].FetchCall? && c.cache == Some(c.calls[last - 1].token)
          && c.calls[last].InsertCall? && c.calls[last].userId == c.calls[last - 1].token.userId
          && |c.calls[last].points| == c.outcome.value.fetched
          && (if r.first.Success? then c.calls[last].points == r.first.value
              else r.second == Success(c.calls[last].points))
          && c.rows == ConflictSkip(rows, RowsFor(c.calls[last].points, c.calls[last].userId))
          && c.outcome.value.inserted == |c.rows| - |rows|)
  }

  lemma FetchAndStoreOutcome(calls: seq<Call>, token: AuthToken, rows: seq<Row>, start: int, now: int, r: Replies)
    requires NoInsert(calls)
    ensures InsertsAsFetched(FetchAndStore(calls, token, Some(token), rows, start, now, r), rows, r)
  {
    var fetched := calls + [FetchCall(token, start, now)];
    var relogged := fetched + [ClearCall, LoginCall];
    assert NoInsert(fetched);
    assert NoInsert(relogged);
    var first := r.first;
    if first.Success? {
      StoreOutcome(fetched, first.value, token, rows);
    } else if first.error.AuthExpired? {
      var login := r.relogin;
      if login.Success? {
        var refetched := relogged + [FetchCall(login.value, start, now)];
        assert NoInsert(refetched);
        var second := r.second;
        if second.Success? {
          StoreOutcome(refetched, second.value, login.value, rows);
        }
      }
    }
  }

  lemma StoreOutcome(calls: seq<Call>, points: seq<HeartRatePoint>, token: AuthToken, rows: seq<Row>)
    requires NoInsert(calls) && |calls| > 0 && calls[|calls| - 1].FetchCall? && calls[|calls| - 1].token == token
    ensures var c := Store(calls, points, token, Some(token), rows);
      c.calls[..|calls|] == calls && c.outcome.Success? && c.cache == Some(token)
      && (|points| == 0 ==> c.calls == calls && c.rows == rows && c.outcome.value == SyncReport(0, 0))
      && (|points| > 0 ==>
            c.calls == calls + [InsertCall(points, token.userId)]
            && NoInsert(c.calls[..|calls|])
            && c.rows == ConflictSkip(rows, RowsFor(points, token.userId))
            && c.outcome.value == SyncReport(|points|, |c.rows| - |rows|)
            && c.outcome.value.inserted <= |points|)
  {
    if |points| > 0 {
      var c := Store(calls, points, token, Some(token), rows);
      assert c.calls[..|calls|] == calls;
    }
  }

  /** The insert, when there is one, is the cycle's last call and carries the points of the
      fetch before it for the user of the token that fetch used (the renewed one after a
      re-login); a failed cycle, or one that fetched nothing, writes nothing. */
  lemma SyncInsertsAsFetched(cache: Option<AuthToken>, rows: seq<Row>, now: int, s: Script)
    ensures InsertsAsFetched(SyncSpec(cache, rows, now, s), rows, RepliesOf(s, 0))
  {
    var start := WindowStart(rows, now);
    var cached := GetToken(cache, now);
    if cached.Some? {
      assert SyncSpec(cache, rows, now, s) == FetchAndStore([ReadMarkCall], cached.value, Some(cached.value), rows, start, now, RepliesOf(s, 0));
      FetchAndStoreOutcome([ReadMarkCall], cached.value, rows, start, now, RepliesOf(s, 0));
    } else {
      var login := s.login(0);
      if login.Success? {
        assert SyncSpec(cache, rows, now, s) == FetchAndStore([LoginCall, ReadMarkCall], login.value, Some(login.value), rows, start, now, RepliesOf(s, 1));
        FetchAndStoreOutcome([LoginCall, ReadMarkCall], login.value, rows, start, now, RepliesOf(s, 1));
      }
    }
  }

  predicate FetchesWindow(calls: seq<Call>, start: int, end: int) {
    forall i :: 0 <= i < |calls| && calls[i].FetchCall? ==> calls[i].start == start && calls[i].end == end
  }

  lemma FetchAndStoreWindow(calls: seq<Call>, token: AuthToken, cache: Option<AuthToken>, rows: seq<Row>,
                            start: int, now: int, r: Replies)
    requires FetchesWindow(calls, start, now)
    ensures FetchesWindow(FetchAndStore(calls, token, cache, rows, start, now, r).calls, start, now)
  {
    var fetched := calls + [FetchCall(token, start, now)];
    assert FetchesWindow(fetched, start, now);
    var first := r.first;
    if first.Success? {
      StoreWindow(fetched, first.value, token, cache, rows, start, now);
    } else if first.error.AuthExpired? {
      var relogged := fetched + [ClearCall, LoginCall];
      assert FetchesWindow(relogged, start, now);
      var login := r.relogin;
      if login.Success? {
        var refetched := relogged + [FetchCall(login.value, start, now)];
        assert FetchesWindow(refetched, start, now);
        var second := r.second;
        if second.Success? {
          StoreWindow(refetched, second.value, login.value, Some(login.value), rows, start, now);
        }
      }
    }
  }

  lemma StoreWindow(calls: seq<Call>, points: seq<HeartRatePoint>, token: AuthToken, cache: Option<AuthToken>, rows: seq<Row>,
                    start: int, now: int)
    requires FetchesWindow(calls, start, now)
    ensures FetchesWindow(Store(calls, points, token, cache, rows).calls, start, now)
  {
    if |points| > 0 {
      assert FetchesWindow(calls + [InsertCall(points, token.userId)], start, now);
    }
  }

  /** Every fetch of a cycle, the retry included, asks for the same window: from the
      high-water mark (24 hours before `now` on an empty table) to `now`. */
  lemma SyncFetchWindow(cache: Option<AuthToken>, rows: seq<Row>, now: int, s: Script)
    ensures FetchesWindow(SyncSpec(cache, rows, now, s).calls, WindowStart(rows, now), now)
  {
    var start := WindowStart(rows, now);
    var cached := GetToken(cache, now);
    if cached.Some? {
      FetchAndStoreWindow([ReadMarkCall], cached.value, cache, rows, start, now, RepliesOf(s, 0));
    } else {
      var login := s.login(0);
      if login.Success? {
        FetchAndStoreWindow([LoginCall, ReadMarkCall], login.value, Some(login.value), rows, start, now, RepliesOf(s, 1));
      }
    }
  }

  /** Recovery: with a usable cached token, a first fetch refused with 401 or 403, a
      successful re-login and a successful second fetch, the cycle succeeds with exactly
      one login. */
  lemma RecoveryAfterOneExpiry(cache: Option<AuthToken>, rows: seq<Row>, now: int, s: Script)
    requires GetToken(cache, now).Some?
    requires s.server(0).status == 401 || s.server(0).status == 403
    requires s.login(0).Success?
    requires Classify(s.server(1)).Success?
    ensures var c := SyncSpec(cache, rows, now, s);
      c.outcome.Success? && CountKind(c.calls, LoginKind) == 1
      && c.cache == Some(s.login(0).value)
  {
    var renewed := s.login(0).value;
    var start := WindowStart(rows, now);
    var refetched := [ReadMarkCall] + [FetchCall(cache.value, start, now)] + [ClearCall, LoginCall] + [FetchCall(renewed, start, now)];
    var points := Classify(s.server(1)).value;
    assert SyncSpec(cache, rows, now, s) == Store(refetched, points, renewed, Some(renewed), rows);
    RetryCallsLogInOnce(cache.value, renewed, start, now);
    StoreCounts(refetched, points, renewed, Some(renewed), rows);
  }

  /** Recovery without a usable cached token: the cycle logs in, the first fetch is refused
      with 401 or 403, and the re-login and the second fetch succeed. The cycle succeeds with
      exactly two logins, and the slot holds the token of the second. */
  lemma RecoveryWithoutCache(cache: Option<AuthToken>, rows: seq<Row>, now: int, s: Script)
    requires GetToken(cache, now).None?
    requires s.login(0).Success? && s.login(1).Success?
    requires s.server(0).status == 401 || s.server(0).status == 403
    requires Classify(s.server(1)).Success?
    ensures var c := SyncSpec(cache, rows, now, s);
      c.outcome.Success? && CountKind(c.calls, LoginKind) == 2
      && c.cache == Some(s.login(1).value)
  {
    var first, renewed := s.login(0).value, s.login(1).value;
    var start := WindowStart(rows, now);
    var retry := [ReadMarkCall] + [FetchCall(first, start, now)] + [ClearCall, LoginCall] + [FetchCall(renewed, start, now)];
    var refetched := [LoginCall] + retry;
    var points := Classify(s.server(1)).value;
    assert SyncSpec(cache, rows, now, s) == FetchAndStore([LoginCall, ReadMarkCall], first, Some(first), rows, start, now, RepliesOf(s, 1));
    assert [LoginCall, ReadMarkCall] + [FetchCall(first, start, now)] + [ClearCall, LoginCall] + [FetchCall(renewed, start, now)] == refetched;
    assert FetchAndStore([LoginCall, ReadMarkCall], first, Some(first), rows, start, now, RepliesOf(s, 1))
        == Store(refetched, points, renewed, Some(renewed), rows);
    RetryCallsLogInOnce(first, renewed, start, now);
    CountKindAppend([LoginCall], retry, LoginKind);
    StoreCounts(refetched, points, renewed, Some(renewed), rows);
  }

  lemma RetryCallsLogInOnce(first: AuthToken, renewed: AuthToken, start: int, now: int)
    ensures CountKind([ReadMarkCall] + [FetchCall(first, start, now)] + [ClearCall, LoginCall] + [FetchCall(renewed, start, now)], LoginKind) == 1
  {
    var calls := [ReadMarkCall] + [FetchCall(first, start, now)] + [ClearCall, LoginCall] + [FetchCall(renewed, start, now)];
    var tail := [FetchCall(renewed, start, now)];
    assert CountKind(tail[1..], LoginKind) == 0;
    assert CountKind(tail, LoginKind) == 0;
    assert calls[3..] == [LoginCall] + tail;
    assert CountKind(calls[3..], LoginKind) == 1;
    assert calls[2..][1..] == calls[3..];
    assert CountKind(calls[2..], LoginKind) == 1;
    assert calls[1..][1..] == calls[2..];
    assert CountKind(calls[1..], LoginKind) == 1;
  }

  /** Two refusals in a row fail the cycle, and nothing is written. */
  lemma ExpiredTwiceFails(cache: Option<AuthToken>, rows: seq<Row>, now: int, s: Script)
    requires GetToken(cache, now).Some?
    requires s.server(0).status == 401 || s.server(0).status == 403
    requires s.server(1).status == 401 || s.server(1).status == 403
    ensures var c := SyncSpec(cache, rows, now, s);
      c.outcome.Failure? && c.rows == rows && NoInsert(c.calls)
      && (s.login(0).Success? ==> c.outcome.error == FetchFailed(AuthExpired))
  {
    SyncInsertsAsFetched(cache, rows, now, s);
  }

  /** Without a usable cached token, after a successful login, two refusals in a row fail
      the cycle and nothing is written; when the re-login succeeds, the error is `AuthExpired`. */
  lemma ExpiredTwiceFailsWithoutCache(cache: Option<AuthToken>, rows: seq<Row>, now: int, s: Script)
    requires GetToken(cache, now).None? && s.login(0).Success?
    requires s.server(0).status == 401 || s.server(0).status == 403
    requires s.server(1).status == 401 || s.server(1).status == 403
    ensures var c := SyncSpec(cache, rows, now, s);
      c.outcome.Failure? && c.rows == rows && NoInsert(c.calls)
      && (s.login(1).Success? ==> c.outcome.error == FetchFailed(AuthExpired))
  {
    SyncInsertsAsFetched(cache, rows, now, s);
  }

  /** Scenario: an empty table and a server returning three samples at 100, 200 and 300 ms:
      three fetched, three inserted, and the new high-water mark is 300. */
  lemma FirstSyncScenario(token: AuthToken, now: int, s: Script)
    requires GetToken(Some(token), now).Some?
    requires s.server(0) == HttpResponse(200, "", Some([MetricValue(60, 100), MetricValue(61, 200), MetricValue(62, 300)]))
    ensures var c := SyncSpec(Some(token), [], now, s);
      c.outcome == Success(SyncReport(3, 3)) && MaxTime(c.rows) == Some(300)
  {
    var points := [HeartRatePoint(60, 100), HeartRatePoint(61, 200), HeartRatePoint(62, 300)];
    var got := Classify(s.server(0)).value;
    assert |got| == 3 && got[0] == points[0] && got[1] == points[1] && got[2] == points[2];
    assert got == points;
    var batch := RowsFor(points, token.userId);
    assert batch == [Row(100, 60, token.userId), Row(200, 61, token.userId), Row(300, 62, token.userId)];
    var after := ConflictSkip([], batch);
    assert Keys([]) == {};
    KeysAppend([], batch[0]);
    assert [] + [batch[0]] == [batch[0]];
    KeysAppend([batch[0]], batch[1]);
    assert [batch[0]] + [batch[1]] == batch[..2];
    assert ConflictSkip([], batch) == ConflictSkip(batch[..2], batch[2..]);
    KeysAppend(batch[..2], batch[2]);
    assert batch[..2] + [batch[2]] == batch;
    assert after == batch;
    assert MaxTime(batch[2..]) == Some(300);
    assert MaxTime(batch[1..]) == Some(300);
  }

  /** Scenario: a table whose high-water mark is 300 and a server returning no sample: the
      window starts at 300, nothing is inserted and the table is unchanged. */
  lemma NothingNewScenario(token: AuthToken, rows: seq<Row>, now: int, s: Script)
    requires GetToken(Some(token), now).Some?
    requires MaxTime(rows) == Some(300)
    requires s.server(0) == HttpResponse(200, "", Some([]))
    ensures var c := SyncSpec(Some(token), rows, now, s);
      c.outcome == Success(SyncReport(0, 0)) && c.rows == rows && NoInsert(c.calls)
      && c.calls == [ReadMarkCall, FetchCall(token, 300, now)]
  {
  }

  /** `sync()`: the cycle's calls and outcome, with the slot and the table updated as
      `SyncSpec` says. */
  method Sync(session: Session, table: HeartRateTable, now: int, o: Oracle) returns (calls: seq<Call>, outcome: Result<SyncReport, SyncError>)
    requires table.Valid()
    modifies session, table
    ensures table.Valid()
    ensures Cycle(calls, outcome, session.cachedToken, table.rows) == SyncSpec(old(session.cachedToken), old(table.rows), now, ScriptOf(o))
  {
    calls := [];
    var logins := 0;
    var token: AuthToken;
    var cached := GetToken(session.cachedToken, now);
    if cached.Some? {
      token := cached.value;
    } else {
      calls := calls + [LoginCall];
      var r := session.Login(o.browser(0), o.decode);
      if r.Failure? {
        return calls, Failure(AuthFailed(r.error));
      }
      token := r.value;
      logins := 1;
    }

    calls := calls + [ReadMarkCall];
    var mark := table.GetHighWaterMark();
    var start := if mark.Some? then mark.value else now - DayMs;
    assert start == WindowStart(old(table.rows), now);
    ghost var cache := session.cachedToken;
    ghost var pre := calls;
    assert pre == if cached.Some? then [ReadMarkCall] else [LoginCall, ReadMarkCall];
    calls, outcome := FetchAndInsert(session, table, calls, token, start, now, logins, o);
    assert Cycle(calls, outcome, session.cachedToken, table.rows)
        == FetchAndStore(pre, token, cache, old(table.rows), start, now, RepliesOf(ScriptOf(o), logins));
  }

  /** Steps 3 and 4 of `sync()`, once the token and the window are known. */
  method FetchAndInsert(session: Session, table: HeartRateTable, calls0: seq<Call>, token: AuthToken,
                        start: int, end: int, logins: nat, o: Oracle)
    returns (calls: seq<Call>, outcome: Result<SyncReport, SyncError>)
    requires table.Valid()
    modifies session, table
    ensures table.Valid()
    ensures Cycle(calls, outcome, session.cachedToken, table.rows)
         == FetchAndStore(calls0, token, old(session.cachedToken), old(table.rows), start, end, RepliesOf(ScriptOf(o), logins))
  {
    ghost var replies := RepliesOf(ScriptOf(o), logins);
    ghost var spec := FetchAndStore(calls0, token, session.cachedToken, table.rows, start, end, replies);
    ghost var rows0 := table.rows;
    calls := calls0 + [FetchCall(token, start, end)];
    var first := Classify(o.server(0));
    if first.Success? {
      assert spec == Store(calls, first.value, token, session.cachedToken, rows0);
      calls, outcome := InsertPoints(table, calls, first.value, token, session.cachedToken);
    } else if !first.error.AuthExpired? {
      outcome := Failure(FetchFailed(first.error));
    } else {
      session.ClearToken();
      calls := calls + [ClearCall, LoginCall];
      var r := session.Login(o.browser(logins), o.decode);
      if r.Failure? {
        assert spec == Cycle(calls, Failure(AuthFailed(r.error)), SlotAfterLogin(None, r), rows0);
        return calls, Failure(AuthFailed(r.error));
      }
      calls := calls + [FetchCall(r.value, start, end)];
      var second := Classify(o.server(1));
      if second.Failure? {
        assert spec == Cycle(calls, Failure(FetchFailed(second.error)), Some(r.value), rows0);
        return calls, Failure(FetchFailed(second.error));
      }
      assert spec == Store(calls, second.value, r.value, Some(r.value), rows0);
      calls, outcome := InsertPoints(table, calls, second.value, r.value, session.cachedToken);
    }
  }

  /** Step 4 of `sync()`: nothing to do for an empty fetch, else one insert for the token's user. */
  method InsertPoints(table: HeartRateTable, calls0: seq<Call>, points: seq<HeartRatePoint>, token: AuthToken,
                      ghost cache: Option<AuthToken>)
    returns (calls: seq<Call>, outcome: Result<SyncReport, SyncError>)
    requires table.Valid()
    modifies table
    ensures table.Valid()
    ensures Cycle(calls, outcome, cache, table.rows) == Store(calls0, points, token, cache, old(table.rows))
  {
    if |points| == 0 {
      return calls0, Success(SyncReport(0, 0));
    }
    calls := calls0 + [InsertCall(points, token.userId)];
    ghost var before := table.rows;
    var inserted, _ := table.InsertHeartRatePoints(points, token.userId);
    ghost var after := ConflictSkip(before, RowsFor(points, token.userId));
    assert table.rows == after && inserted == |after| - |before|;
    outcome := Success(SyncReport(|points|, inserted));
    assert Store(calls0, points, token, cache, before) == Cycle(calls, outcome, cache, after);
  }

  /** `runSync()`: a cycle whose failure is logged and swallowed; the caller always
      regains control, with the cycle's effects on the slot and the table in place. */
  method RunSync(session: Session, table: HeartRateTable, now: int, o: Oracle) returns (logged: Option<SyncError>)
    requires table.Valid()
    modifies session, table
    ensures table.Valid()
    ensures var c := SyncSpec(old(session.cachedToken), old(table.rows), now, ScriptOf(o));
      session.cachedToken == c.cache && table.rows == c.rows
      && logged == (if c.outcome.Failure? then Some(c.outcome.error) else None)
  {
    var _, outcome := Sync(session, table, now, o);
    logged := if outcome.Failure? then Some(outcome.error) else None;
  }
}
