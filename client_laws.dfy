/** What the request and session policy of `CoziClient` promises, proved of
    the functions of `ClientSpec`. */
module ClientLaws {
  import opened Common
  import opened Seqs
  import opened Dates
  import opened Models
  import opened AuthTokens
  import opened CalendarHelpers
  import opened ClientSpec

  /** From attempt `retry + 1` on, the policy makes between one attempt and all
      the attempts left; every attempt but the last received a transient reply,
      and the last did too only when no retry was left. */
  lemma {:induction false} AttemptsBounds(remote: seq<Reply>, k: nat, retry: nat)
    requires retry <= MaxRetries
    ensures var n := AttemptsFrom(remote, k, retry);
            1 <= n <= MaxRetries + 1 - retry &&
            (forall j :: k <= j < k + n - 1 ==> Transient(ReplyTo(remote, j))) &&
            (n < MaxRetries + 1 - retry ==> !Transient(ReplyTo(remote, k + n - 1)))
    decreases MaxRetries - retry
  {
    if Transient(ReplyTo(remote, k)) && retry < MaxRetries {
      AttemptsBounds(remote, k + 1, retry + 1);
    }
  }

  /** The policy sends the same GET, with the same bearer header, once per
      attempt, changes no session field, and hands back the last reply. */
  lemma {:induction false} RetryFromSends(w: World, remote: seq<Reply>, path: string, retry: nat)
    requires retry <= MaxRetries
    ensures var s := RetryFrom(w, remote, path, retry);
            var n := AttemptsFrom(remote, |w.sent|, retry);
            s.world.sent == w.sent + seq(n, _ => GetOf(w, path)) &&
            s.world.session == w.session &&
            s.result == ReplyTo(remote, |w.sent| + n - 1)
    decreases MaxRetries - retry
  {
    var x := Exchange(w, remote, GetOf(w, path));
    if Transient(x.result) && retry < MaxRetries {
      var w' := Pause(x.world, Pow2(retry + 1));
      RetryFromSends(w', remote, path, retry + 1);
      var m := AttemptsFrom(remote, |w'.sent|, retry + 1);
      assert GetOf(w', path) == GetOf(w, path);
      assert x.world.sent + seq(m, _ => GetOf(w, path)) == w.sent + seq(m + 1, _ => GetOf(w, path));
    } else {
      assert x.world.sent == w.sent + seq(1, _ => GetOf(w, path));
    }
  }

  /** Between consecutive attempts the policy waits 2^(retry+1), 2^(retry+2), …
      seconds. */
  lemma {:induction false} RetryFromWaits(w: World, remote: seq<Reply>, path: string, retry: nat)
    requires retry <= MaxRetries
    ensures RetryFrom(w, remote, path, retry).world.waits
            == w.waits + Backoff(retry + 1, AttemptsFrom(remote, |w.sent|, retry) - 1)
    decreases MaxRetries - retry
  {
    var x := Exchange(w, remote, GetOf(w, path));
    if Transient(x.result) && retry < MaxRetries {
      var w' := Pause(x.world, Pow2(retry + 1));
      RetryFromWaits(w', remote, path, retry + 1);
      var m := AttemptsFrom(remote, |w'.sent|, retry + 1);
      assert Backoff(retry + 1, m) == [Pow2(retry + 1)] + Backoff(retry + 2, m - 1);
    } else {
      assert w.waits + Backoff(retry + 1, 0) == w.waits;
    }
  }

  /** The clock moves by exactly the waits: 2^(retry+1) + … + 2^(retry+n-1). */
  lemma {:induction false} RetryFromClock(w: World, remote: seq<Reply>, path: string, retry: nat)
    requires retry <= MaxRetries
    ensures RetryFrom(w, remote, path, retry).world.clock
            == w.clock + Pow2(retry + AttemptsFrom(remote, |w.sent|, retry)) - Pow2(retry + 1)
    decreases MaxRetries - retry
  {
    var x := Exchange(w, remote, GetOf(w, path));
    if Transient(x.result) && retry < MaxRetries {
      var w' := Pause(x.world, Pow2(retry + 1));
      RetryFromClock(w', remote, path, retry + 1);
      assert Pow2(retry + 2) == 2 * Pow2(retry + 1);
    }
  }

  /** The whole policy from the first attempt: one to four GETs of `path`,
      waits of 2, 4, 8 seconds between them, the clock moved by their sum. */
  lemma RetryShape(w: World, remote: seq<Reply>, path: string)
    ensures var s := Retry(w, remote, path);
            var n := AttemptsFrom(remote, |w.sent|, 0);
            1 <= n <= 4 &&
            s.world.sent == w.sent + seq(n, _ => GetOf(w, path)) &&
            s.world.waits == w.waits + Backoff(1, n - 1) &&
            s.world.clock == w.clock + Pow2(n) - 2 &&
            s.world.session == w.session &&
            s.result == ReplyTo(remote, |w.sent| + n - 1)
  {
    AttemptsBounds(remote, |w.sent|, 0);
    RetryFromSends(w, remote, path, 0);
    RetryFromWaits(w, remote, path, 0);
    RetryFromClock(w, remote, path, 0);
  }

  /** Replies 500, 500, 200: three GETs, and exactly two waits, of 2 and 4 seconds. */
  lemma RetryScenario(w: World, remote: seq<Reply>, path: string)
    requires |w.sent| + 3 <= |remote|
    requires HasStatus(remote[|w.sent|], 500) && HasStatus(remote[|w.sent| + 1], 500)
    requires HasStatus(remote[|w.sent| + 2], 200)
    ensures Retry(w, remote, path).world.sent == w.sent + [GetOf(w, path), GetOf(w, path), GetOf(w, path)]
    ensures Retry(w, remote, path).world.waits == w.waits + [2, 4]
    ensures Retry(w, remote, path).result == remote[|w.sent| + 2]
  {
    var k := |w.sent|;
    assert AttemptsFrom(remote, k + 2, 2) == 1;
    assert AttemptsFrom(remote, k, 0) == 3;
    RetryShape(w, remote, path);
    assert Backoff(1, 2) == [2, 4];
    assert seq(3, _ => GetOf(w, path)) == [GetOf(w, path), GetOf(w, path), GetOf(w, path)];
  }

  /** A reply that is neither a transport failure nor a 5xx is taken as it is:
      one GET, no wait. */
  lemma NoRetryOnDefinitiveReply(w: World, remote: seq<Reply>, path: string)
    requires !Transient(ReplyTo(remote, |w.sent|))
    ensures Retry(w, remote, path) == Step(w.(sent := w.sent + [GetOf(w, path)]), ReplyTo(remote, |w.sent|))
  {
    assert AttemptsFrom(remote, |w.sent|, 0) == 1;
    RetryShape(w, remote, path);
    assert seq(1, _ => GetOf(w, path)) == [GetOf(w, path)];
  }

  /** `AuthenticateAsync` posts the stored credentials exactly once and waits
      for nothing. It succeeds exactly on a 2xx reply carrying an
      authentication body, and then the token is the access token valid for
      `expiresIn` seconds from now, the account id is the reply's and the bearer
      header is the access token; on failure the session is unchanged. */
  lemma AuthenticateEffect(w: World, remote: seq<Reply>)
    ensures var a := Authenticate(w, remote);
            var reply := ReplyTo(remote, |w.sent|);
            var s := w.session;
            a.world.sent == w.sent + [PostLogin(s.username, s.password, s.bearer)] &&
            a.world.waits == w.waits && a.world.clock == w.clock &&
            (a.result.Pass? <==> reply.Response? && IsSuccess(reply.status) && reply.body.Some? && reply.body.value.AuthBody?) &&
            (a.result.Pass? ==>
               a.world.session == s.(token := Some(AuthToken(reply.body.value.accessToken, w.clock + reply.body.value.expiresIn)),
                                     accountId := Some(reply.body.value.accountId),
                                     bearer := Some(reply.body.value.accessToken))) &&
            (a.result.Fail? ==> a.world.session == s)
  {
  }

  /** The failure `AuthenticateAsync` raises, by reply. */
  lemma AuthenticateFailures(w: World, remote: seq<Reply>)
    ensures var a := Authenticate(w, remote);
            var reply := ReplyTo(remote, |w.sent|);
            (reply.NetworkFault? ==> a.result == Fail(NetworkFailure)) &&
            (reply.Response? && !IsSuccess(reply.status) ==> a.result == Fail(HttpStatus(reply.status))) &&
            (reply.Response? && IsSuccess(reply.status) && reply.body.None? ==> a.result == Fail(EmptyAuthResponse))
  {
  }

  /** `LoginAsync`: a null username changes nothing and sends nothing; a null
      password leaves only the username stored; otherwise the POST carries the
      new credentials, whatever the authentication then does. */
  lemma LoginEffect(w: World, remote: seq<Reply>, username: Option<string>, password: Option<string>)
    ensures username.None? ==> Login(w, remote, username, password) == Step(w, Fail(NullArgument("username")))
    ensures username.Some? && password.None? ==>
              Login(w, remote, username, password) == Step(w.(session := w.session.(username := username)), Fail(NullArgument("password")))
    ensures username.Some? && password.Some? ==>
              var l := Login(w, remote, username, password);
              l.world.sent == w.sent + [PostLogin(username, password, w.session.bearer)] &&
              l.world.session.username == username && l.world.session.password == password
  {
  }

  /** Right after a successful login the client counts as logged in exactly
      when the server granted more than the one-minute margin. */
  lemma LoginThenLoggedIn(w: World, remote: seq<Reply>, username: string, password: string)
    requires Login(w, remote, Some(username), Some(password)).result.Pass?
    ensures var reply := ReplyTo(remote, |w.sent|);
            EnsureLoggedIn(Login(w, remote, Some(username), Some(password)).world).Pass?
            <==> reply.body.value.expiresIn > ExpiryMargin
  {
    var reply := ReplyTo(remote, |w.sent|);
    var t := AuthToken(reply.body.value.accessToken, w.clock + reply.body.value.expiresIn);
    LiveIffMarginLeft(t, w.clock);
  }

  /** `EnsureSuccessStatusCode` and the null check: a value exactly for a 2xx
      response with a body, which is then the body. */
  lemma ConcludeOk(reply: Reply, nullError: Failure)
    ensures Conclude(reply, nullError).Ok? <==> reply.Response? && IsSuccess(reply.status) && reply.body.Some?
    ensures Conclude(reply, nullError).Ok? ==> Conclude(reply, nullError).value == reply.body.value
    ensures reply.Response? && !IsSuccess(reply.status) ==> Conclude(reply, nullError) == Err(HttpStatus(reply.status))
  {
  }

  /** After a passed login check the refresh branch of `SendAsync` cannot fire:
      the check and the refresh read the same clock. */
  lemma NoRefreshAfterLoginCheck(w: World, remote: seq<Reply>)
    requires EnsureLoggedIn(w).Pass?
    ensures RefreshIfExpired(w, remote) == Step(w, Pass)
  {
  }

  /** `SendAsync` after a passed login check: without a 401 the retried reply
      is concluded as it is. On a 401 the client authenticates once; if that
      fails its failure is thrown, otherwise exactly one more GET of the same
      path, with the new bearer header and without the retry policy, decides
      the result. */
  lemma SendOutcome(w: World, remote: seq<Reply>, path: string)
    requires EnsureLoggedIn(w).Pass?
    ensures var r := Retry(w, remote, path);
            var s := Send(w, remote, path);
            !HasStatus(r.result, 401) ==> s == Step(r.world, Conclude(r.result, NullContent))
    ensures var r := Retry(w, remote, path);
            var s := Send(w, remote, path);
            var a := Authenticate(r.world, remote);
            HasStatus(r.result, 401) && a.result.Fail? ==> s == Step(a.world, Err(a.result.error))
    ensures var r := Retry(w, remote, path);
            var s := Send(w, remote, path);
            var a := Authenticate(r.world, remote);
            var rs := r.world.session;
            HasStatus(r.result, 401) && a.result.Pass? ==>
              s.world.sent == r.world.sent + [PostLogin(rs.username, rs.password, rs.bearer), Get(path, a.world.session.bearer)] &&
              s.world.waits == r.world.waits &&
              s.result == Conclude(ReplyTo(remote, |r.world.sent| + 1), NullContent)
  {
    AuthenticateEffect(Retry(w, remote, path).world, remote);
  }

  /** Every data call throws `NotAuthenticated` before sending anything when
      there is no token or it has expired. */
  lemma DataCallsRequireLogin(w: World, remote: seq<Reply>, listId: string, year: int, month: int, itemId: string)
    requires EnsureLoggedIn(w).Fail?
    ensures GetLists(w, remote) == Step(w, Err(NotAuthenticated))
    ensures GetList(w, remote, listId) == Step(w, Err(NotAuthenticated))
    ensures GetCalendarMonth(w, remote, year, month) == Step(w, Err(NotAuthenticated))
    ensures GetPeople(w, remote) == Step(w, Err(NotAuthenticated))
    ensures GetCalendarItem(w, remote, itemId) == Step(w, Err(NotAuthenticated))
  {
  }

  /** The login check precedes the month check; a month outside 1..12 is
      rejected before any request. */
  lemma MonthValidatedBeforeRequest(w: World, remote: seq<Reply>, year: int, month: int)
    requires month < 1 || month > 12
    ensures EnsureLoggedIn(w).Fail? ==> GetCalendarMonth(w, remote, year, month) == Step(w, Err(NotAuthenticated))
    ensures EnsureLoggedIn(w).Pass? ==> GetCalendarMonth(w, remote, year, month) == Step(w, Err(MonthOutOfRange))
  {
  }

  /** The two item paths differ (in the version). */
  lemma ItemPathsDiffer(accountId: string, itemId: string)
    ensures ItemPath("2004", accountId, itemId) != ItemPath("2207", accountId, itemId)
  {
    assert ItemPath("2004", accountId, itemId)[9] == '0';
    assert ItemPath("2207", accountId, itemId)[9] == '2';
  }

  /** The reply the item call ends with decides its result: the item exactly
      for a 2xx reply carrying one; a 404 is "not found"; another non-2xx
      status throws with that status; a null body after a 2xx throws the
      null-item failure. */
  lemma ItemOutcomeFacts(reply: Reply, itemId: string)
    ensures ItemOutcome(reply, itemId).Ok? <==>
              reply.Response? && IsSuccess(reply.status) && reply.body.Some? && reply.body.value.ItemBody?
    ensures ItemOutcome(reply, itemId).Ok? ==> ItemOutcome(reply, itemId).value == reply.body.value.item
    ensures HasStatus(reply, 404) ==> ItemOutcome(reply, itemId) == Err(ItemNotFound(itemId))
    ensures reply.Response? && reply.status != 404 && !IsSuccess(reply.status) ==>
              ItemOutcome(reply, itemId) == Err(HttpStatus(reply.status))
    ensures reply.Response? && IsSuccess(reply.status) && reply.body.None? ==>
              ItemOutcome(reply, itemId) == Err(NullCalendarItem)
    ensures reply.NetworkFault? ==> ItemOutcome(reply, itemId) == Err(NetworkFailure)
  {
  }

  /** `GetCalendarItemAsync` after a passed login check, by the reply of the
      retried 2004 request. A 404 falls back to one retried request to 2207,
      whose reply decides the result. A 401 authenticates once: a failed
      authentication throws, otherwise one un-retried re-send to 2004 (never
      to 2207) decides the result, so a 404 there is still "not found in
      either version". Any other reply decides the result as it is. */
  lemma ItemLookup(w: World, remote: seq<Reply>, itemId: string)
    requires EnsureLoggedIn(w).Pass?
    ensures var acc := Interp(w.session.accountId);
            var p4, p7 := ItemPath("2004", acc, itemId), ItemPath("2207", acc, itemId);
            var r := Retry(w, remote, p4);
            var s := GetCalendarItem(w, remote, itemId);
            HasStatus(r.result, 404) ==>
              var f := Retry(r.world, remote, p7);
              s == Step(f.world, ItemOutcome(f.result, itemId))
    ensures var acc := Interp(w.session.accountId);
            var p4 := ItemPath("2004", acc, itemId);
            var r := Retry(w, remote, p4);
            var s := GetCalendarItem(w, remote, itemId);
            var a := Authenticate(r.world, remote);
            var rs := r.world.session;
            HasStatus(r.result, 401) ==>
              s.world.sent == r.world.sent + [PostLogin(rs.username, rs.password, rs.bearer)]
                              + (if a.result.Pass? then [Get(p4, a.world.session.bearer)] else []) &&
              s.world.session == a.world.session &&
              (a.result.Fail? ==> s.result == Err(a.result.error)) &&
              (a.result.Pass? ==> s.result == ItemOutcome(ReplyTo(remote, |r.world.sent| + 1), itemId))
    ensures var acc := Interp(w.session.accountId);
            var p4 := ItemPath("2004", acc, itemId);
            var r := Retry(w, remote, p4);
            var s := GetCalendarItem(w, remote, itemId);
            !HasStatus(r.result, 404) && !HasStatus(r.result, 401) ==>
              s == Step(r.world, ItemOutcome(r.result, itemId))
  {
    var acc := Interp(w.session.accountId);
    AuthenticateEffect(Retry(w, remote, ItemPath("2004", acc, itemId)).world, remote);
  }

  /** A 401 on the 2004 item request followed by a 404 on its re-send is
      reported as "not found in either 2004 or 2207", although 2207 was never
      asked. */
  lemma UnauthorizedThenMissingIsNotFound(w: World, remote: seq<Reply>, itemId: string)
    requires EnsureLoggedIn(w).Pass?
    requires var r := Retry(w, remote, ItemPath("2004", Interp(w.session.accountId), itemId));
             HasStatus(r.result, 401) && Authenticate(r.world, remote).result.Pass? &&
             HasStatus(ReplyTo(remote, |r.world.sent| + 1), 404)
    ensures GetCalendarItem(w, remote, itemId).result == Err(ItemNotFound(itemId))
  {
    ItemLookup(w, remote, itemId);
  }

  /** A 401 on the 2004 item request never leads to a request to the 2207 path. */
  lemma UnauthorizedItemNeverFallsBack(w: World, remote: seq<Reply>, itemId: string)
    requires EnsureLoggedIn(w).Pass?
    requires HasStatus(Retry(w, remote, ItemPath("2004", Interp(w.session.accountId), itemId)).result, 401)
    ensures var p7 := ItemPath("2207", Interp(w.session.accountId), itemId);
            var s := GetCalendarItem(w, remote, itemId);
            forall i :: |w.sent| <= i < |s.world.sent| ==> s.world.sent[i] != Get(p7, s.world.sent[i].bearer)
  {
    var acc := Interp(w.session.accountId);
    var p4, p7 := ItemPath("2004", acc, itemId), ItemPath("2207", acc, itemId);
    ItemPathsDiffer(acc, itemId);
    RetryShape(w, remote, p4);
    ItemLookup(w, remote, itemId);
    var r := Retry(w, remote, p4);
    var s := GetCalendarItem(w, remote, itemId);
    var n := AttemptsFrom(remote, |w.sent|, 0);
    forall i | |w.sent| <= i < |s.world.sent|
      ensures s.world.sent[i] != Get(p7, s.world.sent[i].bearer)
    {
      if i < |r.world.sent| {
        assert s.world.sent[i] == r.world.sent[i] == GetOf(w, p4);
      }
    }
  }

  /** The week starts on a Monday midnight. For Monday to Saturday that is the
      Monday of the same week, so the given date lies in the window; a Sunday
      (`DayOfWeek.Sunday` is 0) gives the FOLLOWING Monday, and the Sunday
      itself lies before the window. */
  lemma WeekStartFacts(d: Instant)
    ensures DayOfWeek(WeekStart(d)) == Monday
    ensures DateOnly(WeekStart(d)) == WeekStart(d)
    ensures DayOfWeek(d) != Sunday ==> WeekStart(d) <= d < AddDays(WeekStart(d), 7)
    ensures DayOfWeek(d) == Sunday ==> DayNumber(WeekStart(d)) == DayNumber(d) + 1 && d < WeekStart(d)
  {
    var n := DayNumber(d);
    var m := n - DayOfWeek(d) + Monday;
    assert WeekStart(d) == m * SecondsPerDay;
    assert DayNumber(WeekStart(d)) == m;
  }

  /** A Sunday lies outside its own week window, so none of the Sunday's
      entries ever appears in its week view, and every entry of its day view
      falls outside that window. */
  lemma SundayOutsideItsWeek(w: World, remote: seq<Reply>, d: Instant, parse: DateParser)
    requires DayOfWeek(d) == Sunday
    ensures forall e: CalendarEntry :: DayNumber(e.date) == DayNumber(d) ==> !InWeek(WeekStart(d))(e)
    ensures GetCalendarWeek(w, remote, d, parse).result.Ok? ==>
              var r := GetCalendarWeek(w, remote, d, parse).result.value;
              forall i :: 0 <= i < |r| ==> DayNumber(r[i].date) != DayNumber(d)
    ensures GetCalendarDay(w, remote, d, parse).result.Ok? ==>
              var r := GetCalendarDay(w, remote, d, parse).result.value;
              forall i :: 0 <= i < |r| ==> !InWeek(WeekStart(d))(r[i])
  {
    WeekStartFacts(d);
    var monday := WeekStart(d);
    assert monday == (DayNumber(d) + 1) * SecondsPerDay;
    forall e: CalendarEntry | DayNumber(e.date) == DayNumber(d) ensures !InWeek(monday)(e) {
      assert e.date < (DayNumber(e.date) + 1) * SecondsPerDay;
    }
    if GetCalendarWeek(w, remote, d, parse).result.Ok? {
      WeekWindow(w, remote, d, parse);
    }
    if GetCalendarDay(w, remote, d, parse).result.Ok? {
      DayWindow(w, remote, d, parse);
    }
  }

  /** The months the week view fetches: the Monday's month, then the month of
      the day after the window if it differs, each once. */
  lemma WeekMonthsFacts(d: Instant)
    ensures var ms := WeekMonths(d);
            var monday := WeekStart(d);
            1 <= |ms| <= 2 && ms[0] == Month(monday) && ms[|ms| - 1] == Month(AddDays(monday, 7)) &&
            (|ms| == 2 ==> ms[0] != ms[1]) &&
            forall i :: 0 <= i < |ms| ==> 1 <= ms[i] <= 12
  {
  }

  /** A turn of the month loop does not look at the entries already collected. */
  lemma FetchNextShift(x: seq<CalendarEntry>, s: Step<Result<seq<CalendarEntry>>>, fetch: MonthFetch, month: int, parse: DateParser)
    requires s.result.Ok?
    ensures var t := FetchNext(s, fetch, month, parse);
            FetchNext(Step(s.world, Ok(x + s.result.value)), fetch, month, parse)
            == Step(t.world, if t.result.Err? then t.result else Ok(x + t.result.value))
  {
    var m := fetch(s.world, month);
    if m.result.Ok? {
      assert x + s.result.value + Flatten(m.result.value, parse) == x + (s.result.value + Flatten(m.result.value, parse));
    }
  }

  /** Fetching `a + b` is fetching `a`, then, unless that failed, fetching `b`
      from where it left off; the entries are concatenated in that order. */
  lemma {:induction false} FetchMonthsAppend(w: World, fetch: MonthFetch, a: seq<int>, b: seq<int>, parse: DateParser)
    ensures var sa := FetchMonthsWith(w, fetch, a, parse);
            var sab := FetchMonthsWith(w, fetch, a + b, parse);
            (sa.result.Err? ==> sab == sa) &&
            (sa.result.Ok? ==>
               var sb := FetchMonthsWith(sa.world, fetch, b, parse);
               sab == Step(sb.world, if sb.result.Err? then sb.result else Ok(sa.result.value + sb.result.value)))
    decreases |b|
  {
    if b == [] {
      assert a + b == a;
      var sa := FetchMonthsWith(w, fetch, a, parse);
      if sa.result.Ok? {
        assert sa.result.value + [] == sa.result.value;
      }
    } else {
      var b', last := b[..|b| - 1], b[|b| - 1];
      assert (a + b)[..|a + b| - 1] == a + b';
      assert (a + b)[|a + b| - 1] == last;
      FetchMonthsAppend(w, fetch, a, b', parse);
      var sa := FetchMonthsWith(w, fetch, a, parse);
      if sa.result.Ok? {
        var sb' := FetchMonthsWith(sa.world, fetch, b', parse);
        if sb'.result.Ok? {
          FetchNextShift(sa.result.value, sb', fetch, last, parse);
        }
      }
    }
  }

  /** One month fetched on its own is the month call followed by `Flatten`. */
  lemma FetchOneMonth(w: World, fetch: MonthFetch, month: int, parse: DateParser)
    ensures var m := fetch(w, month);
            FetchMonthsWith(w, fetch, [month], parse)
            == Step(m.world, if m.result.Err? then Err(m.result.error) else Ok(Flatten(m.result.value, parse)))
  {
    assert [month][..0] == [];
    var m := fetch(w, month);
    if m.result.Ok? {
      assert [] + Flatten(m.result.value, parse) == Flatten(m.result.value, parse);
    }
  }

  /** A fetch that never fails with `failure` on the given months makes the
      month loop never fail with it either. */
  lemma {:induction false} FetchMonthsAvoids(w: World, fetch: MonthFetch, months: seq<int>, parse: DateParser, failure: Failure)
    requires forall v: World, i :: 0 <= i < |months| ==> fetch(v, months[i]).result != Err(failure)
    ensures FetchMonthsWith(w, fetch, months, parse).result != Err(failure)
  {
    if months != [] {
      FetchMonthsAvoids(w, fetch, months[..|months| - 1], parse, failure);
      var s := FetchMonthsWith(w, fetch, months[..|months| - 1], parse);
      assert fetch(s.world, months[|months| - 1]).result != Err(failure);
    }
  }

  /** A month in 1..12 is never rejected as out of range. */
  lemma MonthCallInRange(remote: seq<Reply>, year: int, months: seq<int>)
    requires forall i :: 0 <= i < |months| ==> 1 <= months[i] <= 12
    ensures forall v: World, i :: 0 <= i < |months| ==> MonthCall(remote, year)(v, months[i]).result != Err(MonthOutOfRange)
  {
    forall v: World, i | 0 <= i < |months|
      ensures MonthCall(remote, year)(v, months[i]).result != Err(MonthOutOfRange)
    {
      assert ValidateMonth(months[i]).Pass?;
    }
  }

  /** The year view asks for months 1 to 12 only, so it never raises
      `MonthOutOfRange`. */
  lemma YearNeverOutOfRange(w: World, remote: seq<Reply>, year: int, parse: DateParser)
    ensures GetCalendarYear(w, remote, year, parse).result != Err(MonthOutOfRange)
  {
    MonthCallInRange(remote, year, YearMonths());
    FetchMonthsAvoids(w, MonthCall(remote, year), YearMonths(), parse, MonthOutOfRange);
  }

  /** Nor does the week view. */
  lemma WeekNeverOutOfRange(w: World, remote: seq<Reply>, d: Instant, parse: DateParser)
    ensures GetCalendarWeek(w, remote, d, parse).result != Err(MonthOutOfRange)
  {
    WeekMonthsFacts(d);
    var y := Year(WeekStart(d));
    MonthCallInRange(remote, y, WeekMonths(d));
    FetchMonthsAvoids(w, MonthCall(remote, y), WeekMonths(d), parse, MonthOutOfRange);
  }

  /** Nor does the day view. */
  lemma DayNeverOutOfRange(w: World, remote: seq<Reply>, d: Instant, parse: DateParser)
    ensures GetCalendarDay(w, remote, d, parse).result != Err(MonthOutOfRange)
  {
    assert ValidateMonth(Month(d)).Pass?;
  }

  /** The views run the login check before anything else too. */
  lemma ViewsRequireLogin(w: World, remote: seq<Reply>, year: int, d: Instant, parse: DateParser)
    requires EnsureLoggedIn(w).Fail?
    ensures GetCalendarYear(w, remote, year, parse) == Step(w, Err(NotAuthenticated))
    ensures GetCalendarWeek(w, remote, d, parse) == Step(w, Err(NotAuthenticated))
    ensures GetCalendarDay(w, remote, d, parse) == Step(w, Err(NotAuthenticated))
  {
    var ms := YearMonths();
    FetchOneMonth(w, MonthCall(remote, year), ms[0], parse);
    FetchMonthsAppend(w, MonthCall(remote, year), [ms[0]], ms[1..], parse);
    assert [ms[0]] + ms[1..] == ms;
    var wm := WeekMonths(d);
    var y := Year(WeekStart(d));
    FetchOneMonth(w, MonthCall(remote, y), wm[0], parse);
    FetchMonthsAppend(w, MonthCall(remote, y), [wm[0]], wm[1..], parse);
    assert [wm[0]] + wm[1..] == wm;
  }

  /** The week view keeps, in order, exactly the fetched entries dated from the
      Monday's midnight up to, not including, the next Monday's. */
  lemma WeekWindow(w: World, remote: seq<Reply>, d: Instant, parse: DateParser)
    requires GetCalendarWeek(w, remote, d, parse).result.Ok?
    ensures var monday := WeekStart(d);
            var fetched := FetchMonths(w, remote, Year(monday), WeekMonths(d), parse).result.value;
            var r := GetCalendarWeek(w, remote, d, parse).result.value;
            IsSubseq(r, fetched) &&
            (forall i :: 0 <= i < |r| ==> monday <= r[i].date < AddDays(monday, 7)) &&
            (forall i :: 0 <= i < |fetched| ==> (fetched[i] in r <==> monday <= fetched[i].date < AddDays(monday, 7))) &&
            (forall e :: multiset(r)[e] == if monday <= e.date < AddDays(monday, 7) then multiset(fetched)[e] else 0)
  {
    var monday := WeekStart(d);
    var fetched := FetchMonths(w, remote, Year(monday), WeekMonths(d), parse).result.value;
    FilterIsSubseq(fetched, InWeek(monday));
    forall e ensures multiset(Filter(fetched, InWeek(monday)))[e] == if InWeek(monday)(e) then multiset(fetched)[e] else 0 {
      FilterMultiplicity(fetched, InWeek(monday), e);
    }
  }

  /** The day view keeps, in order, exactly the entries of the date's month
      that fall on the same calendar date. */
  lemma DayWindow(w: World, remote: seq<Reply>, d: Instant, parse: DateParser)
    requires GetCalendarDay(w, remote, d, parse).result.Ok?
    ensures var month := GetCalendarMonth(w, remote, Year(d), Month(d)).result.value;
            var all := Flatten(month, parse);
            var r := GetCalendarDay(w, remote, d, parse).result.value;
            IsSubseq(r, all) &&
            (forall i :: 0 <= i < |r| ==> DayNumber(r[i].date) == DayNumber(d)) &&
            (forall i :: 0 <= i < |all| ==> (all[i] in r <==> DayNumber(all[i].date) == DayNumber(d))) &&
            (forall e :: multiset(r)[e] == if DayNumber(e.date) == DayNumber(d) then multiset(all)[e] else 0)
  {
    var all := Flatten(GetCalendarMonth(w, remote, Year(d), Month(d)).result.value, parse);
    FilterIsSubseq(all, OnDay(d));
    forall e: CalendarEntry ensures OnDay(d)(e) <==> DayNumber(e.date) == DayNumber(d) {
      assert DateOnly(e.date) == DayNumber(e.date) * SecondsPerDay;
    }
    forall e ensures multiset(Filter(all, OnDay(d)))[e] == if OnDay(d)(e) then multiset(all)[e] else 0 {
      FilterMultiplicity(all, OnDay(d), e);
    }
  }

  /** 30 December 2024 is day 739249 ... */
  lemma LastMondayOf2024()
    ensures FromCivil(2024, 12, 30) == 739249 * SecondsPerDay
  {
    assert DaysToMonth(IsLeapYear(2024), 11) == 335;
  }

  /** ... and day 739249 is 30 December 2024. */
  lemma Day739249()
    ensures ToCivil(739249) == CivilDate(2024, 12, 30)
  {
  }

  /** Day 739255 is 5 January 2025 and day 739256 is 6 January 2025. */
  lemma FirstSundayOf2025()
    ensures ToCivil(739255) == CivilDate(2025, 1, 5)
    ensures ToCivil(739256) == CivilDate(2025, 1, 6)
  {
  }

  /** Both months of the week view are fetched with the Monday's year: for the
      week of Monday 30 December 2024 the view asks for December 2024 and for
      January 2024, although the window's last days fall in January 2025. */
  lemma WeekAcrossNewYear()
    ensures var d := FromCivil(2024, 12, 30);
            WeekStart(d) == d &&
            WeekMonths(d) == [12, 1] &&
            Year(WeekStart(d)) == 2024 &&
            Year(AddDays(WeekStart(d), 6)) == 2025 && Month(AddDays(WeekStart(d), 6)) == 1
  {
    LastMondayOf2024();
    Day739249();
    FirstSundayOf2025();
    var d := FromCivil(2024, 12, 30);
    assert DayNumber(d) == 739249;
    assert DayOfWeek(d) == Monday;
    assert DateOnly(d) == d;
    assert WeekStart(d) == d;
    assert DayNumber(AddDays(d, 6)) == 739255;
    assert DayNumber(AddDays(d, 7)) == 739256;
  }
}
