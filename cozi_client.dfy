/** The client object of CoziClient.cs: the session fields it updates in place,
    with the request log, the back-off log and the clock alongside. Every method
    is proved to compute the function of the same name in `ClientSpec`; the
    public ones take the wall clock as `now`. */
module Client {
  import opened Common
  import opened Dates
  import opened Models
  import opened AuthTokens
  import opened Seqs
  import opened CalendarHelpers
  import opened ClientSpec
  import opened ClientLaws
  import Endpoints

  class CoziClient {
    /** The replies the server gives, in the order requests are sent. */
    const remote: seq<Reply>

    var username: Option<string>
    var password: Option<string>
    var token: Option<AuthToken>
    var accountId: Option<string>
    /** `DefaultRequestHeaders.Authorization`. */
    var bearer: Option<string>

    var sent: seq<Request>
    var waits: seq<nat>
    var clock: Instant

    /** The client's state as a `ClientSpec.World`. */
    function State(): World
      reads this
    {
      World(Session(username, password, token, accountId, bearer), sent, waits, clock)
    }

    /** `new CoziClient(http)`: no credentials and no token yet. */
    constructor (remote: seq<Reply>, now: Instant)
      ensures this.remote == remote
      ensures State() == Initial(now)
    {
      this.remote := remote;
      username, password, token, accountId, bearer := None, None, None, None, None;
      sent, waits, clock := [], [], now;
    }

    /** One request over the wire. */
    method Exchange(req: Request) returns (reply: Reply)
      modifies this
      ensures State() == ClientSpec.Exchange(old(State()), remote, req).world
      ensures reply == ClientSpec.Exchange(old(State()), remote, req).result
    {
      reply := ReplyTo(remote, |sent|);
      sent := sent + [req];
    }

    /** The back-off sleep of the retry policy. */
    method Pause(seconds: nat)
      modifies this
      ensures State() == ClientSpec.Pause(old(State()), seconds)
    {
      waits := waits + [seconds];
      clock := clock + seconds;
    }

    /** `_retry.ExecuteAsync(() => _http.GetAsync(path))`: the attempt loop of
        the policy. */
    method ExecuteWithRetry(path: string) returns (reply: Reply)
      modifies this
      ensures State() == Retry(old(State()), remote, path).world
      ensures reply == Retry(old(State()), remote, path).result
    {
      var retry := 0;
      reply := Exchange(Get(path, bearer));
      while Transient(reply) && retry < MaxRetries
        invariant retry <= MaxRetries
        invariant RetryAfter(State(), remote, path, reply, retry) == Retry(old(State()), remote, path)
        decreases MaxRetries - retry
      {
        Pause(Pow2(retry + 1));
        retry := retry + 1;
        reply := Exchange(Get(path, bearer));
      }
    }

    /** `AuthenticateAsync`. */
    method Authenticate() returns (o: Outcome)
      modifies this
      ensures State() == ClientSpec.Authenticate(old(State()), remote).world
      ensures o == ClientSpec.Authenticate(old(State()), remote).result
    {
      var issued := clock;
      var reply := Exchange(PostLogin(username, password, bearer));
      if reply.NetworkFault? {
        return Fail(NetworkFailure);
      }
      if !IsSuccess(reply.status) {
        return Fail(HttpStatus(reply.status));
      }
      if reply.body.None? {
        return Fail(EmptyAuthResponse);
      }
      if !reply.body.value.AuthBody? {
        return Fail(MalformedBody);
      }
      var json := reply.body.value;
      token := Some(AuthToken(json.accessToken, issued + json.expiresIn));
      accountId := Some(json.accountId);
      bearer := Some(token.value.value);
      o := Pass;
    }

    /** `EnsureLoggedIn`: passes exactly while a token is held and has not expired. */
    method EnsureLoggedIn() returns (o: Outcome)
      ensures o.Pass? <==> token.Some? && !token.value.IsExpired(clock)
      ensures o.Fail? ==> o.error == NotAuthenticated
      ensures o == ClientSpec.EnsureLoggedIn(State())
    {
      if token.None? || token.value.IsExpired(clock) {
        return Fail(NotAuthenticated);
      }
      return Pass;
    }

    /** `ValidateMonth`: passes exactly for months 1 to 12. */
    static method ValidateMonth(month: int) returns (o: Outcome)
      ensures o.Pass? <==> 1 <= month <= 12
      ensures o.Fail? ==> o.error == MonthOutOfRange
      ensures o == ClientSpec.ValidateMonth(month)
    {
      if month < 1 || month > 12 {
        return Fail(MonthOutOfRange);
      }
      return Pass;
    }

    /** `if (_token is { IsExpired: true }) await AuthenticateAsync()`. */
    method RefreshIfExpired() returns (o: Outcome)
      modifies this
      ensures State() == ClientSpec.RefreshIfExpired(old(State()), remote).world
      ensures o == ClientSpec.RefreshIfExpired(old(State()), remote).result
    {
      if token.Some? && token.value.IsExpired(clock) {
        o := Authenticate();
      } else {
        o := Pass;
      }
    }

    /** Authenticate, then send `path` once more without the policy. */
    method Reauth(path: string) returns (r: Result<Reply>)
      modifies this
      ensures State() == ClientSpec.Reauth(old(State()), remote, path).world
      ensures r == ClientSpec.Reauth(old(State()), remote, path).result
    {
      var a := Authenticate();
      if a.Fail? {
        return Err(a.error);
      }
      var reply := Exchange(Get(path, bearer));
      r := Ok(reply);
    }

    /** `SendAsync` of a GET of `path`. */
    method Send(path: string) returns (r: Result<Payload>)
      modifies this
      ensures State() == ClientSpec.Send(old(State()), remote, path).world
      ensures r == ClientSpec.Send(old(State()), remote, path).result
    {
      var f := RefreshIfExpired();
      if f.Fail? {
        return Err(f.error);
      }
      var resp := ExecuteWithRetry(path);
      if HasStatus(resp, 401) {
        var again := Reauth(path);
        if again.Err? {
          return Err(again.error);
        }
        resp := again.value;
      }
      r := Conclude(resp, NullContent);
    }

    /** `LoginAsync`. */
    method Login(now: Instant, username: Option<string>, password: Option<string>) returns (o: Outcome)
      modifies this
      ensures State() == ClientSpec.Login(old(State()).(clock := now), remote, username, password).world
      ensures o == ClientSpec.Login(old(State()).(clock := now), remote, username, password).result
    {
      clock := now;
      if username.None? {
        return Fail(NullArgument("username"));
      }
      this.username := username;
      if password.None? {
        return Fail(NullArgument("password"));
      }
      this.password := password;
      o := Authenticate();
    }

    /** `GetListsAsync`. */
    method GetLists(now: Instant) returns (r: Result<seq<ListRecord>>)
      modifies this
      ensures State() == ClientSpec.GetLists(old(State()).(clock := now), remote).world
      ensures r == ClientSpec.GetLists(old(State()).(clock := now), remote).result
    {
      clock := now;
      var o := EnsureLoggedIn();
      if o.Fail? {
        return Err(o.error);
      }
      var s := Send(Endpoints.Lists(Interp(accountId)));
      if s.Err? {
        return Err(s.error);
      }
      if !s.value.ListsBody? {
        return Err(MalformedBody);
      }
      r := Ok(s.value.lists);
    }

    /** `GetListAsync`. */
    method GetList(now: Instant, listId: string) returns (r: Result<ListRecord>)
      modifies this
      ensures State() == ClientSpec.GetList(old(State()).(clock := now), remote, listId).world
      ensures r == ClientSpec.GetList(old(State()).(clock := now), remote, listId).result
    {
      clock := now;
      var o := EnsureLoggedIn();
      if o.Fail? {
        return Err(o.error);
      }
      var s := Send(Endpoints.ListById(Interp(accountId), listId));
      if s.Err? {
        return Err(s.error);
      }
      if !s.value.ListBody? {
        return Err(MalformedBody);
      }
      r := Ok(s.value.list);
    }

    /** `GetCalendarMonthAsync` at the current clock, as the views call it. */
    method FetchMonth(year: int, month: int) returns (r: Result<CalendarMonth>)
      modifies this
      ensures State() == ClientSpec.GetCalendarMonth(old(State()), remote, year, month).world
      ensures r == ClientSpec.GetCalendarMonth(old(State()), remote, year, month).result
    {
      var o := EnsureLoggedIn();
      if o.Fail? {
        return Err(o.error);
      }
      var v := ValidateMonth(month);
      if v.Fail? {
        return Err(v.error);
      }
      var s := Send(Endpoints.CalendarMonth(Interp(accountId), year, month));
      if s.Err? {
        return Err(s.error);
      }
      if !s.value.MonthBody? {
        return Err(MalformedBody);
      }
      r := Ok(s.value.month);
    }

    /** `GetCalendarMonthAsync`. */
    method GetCalendarMonth(now: Instant, year: int, month: int) returns (r: Result<CalendarMonth>)
      modifies this
      ensures State() == ClientSpec.GetCalendarMonth(old(State()).(clock := now), remote, year, month).world
      ensures r == ClientSpec.GetCalendarMonth(old(State()).(clock := now), remote, year, month).result
    {
      clock := now;
      r := FetchMonth(year, month);
    }

    /** `GetPeopleAsync`. */
    method GetPeople(now: Instant) returns (r: Result<seq<Person>>)
      modifies this
      ensures State() == ClientSpec.GetPeople(old(State()).(clock := now), remote).world
      ensures r == ClientSpec.GetPeople(old(State()).(clock := now), remote).result
    {
      clock := now;
      var o := EnsureLoggedIn();
      if o.Fail? {
        return Err(o.error);
      }
      var s := Send(Endpoints.People(Interp(accountId)));
      if s.Err? {
        return Err(s.error);
      }
      if !s.value.PeopleBody? {
        return Err(MalformedBody);
      }
      r := Ok(s.value.people);
    }

    /** `GetCalendarItemAsync`. */
    method GetCalendarItem(now: Instant, itemId: string) returns (r: Result<CalendarItem>)
      modifies this
      ensures State() == ClientSpec.GetCalendarItem(old(State()).(clock := now), remote, itemId).world
      ensures r == ClientSpec.GetCalendarItem(old(State()).(clock := now), remote, itemId).result
    {
      clock := now;
      var o := EnsureLoggedIn();
      if o.Fail? {
        return Err(o.error);
      }
      var url2004 := ItemPath("2004", Interp(accountId), itemId);
      var url2207 := ItemPath("2207", Interp(accountId), itemId);
      r := LookupItem(itemId, url2004, url2207);
    }

    /** The item call after the login check. */
    method LookupItem(itemId: string, url2004: string, url2207: string) returns (r: Result<CalendarItem>)
      modifies this
      ensures State() == ClientSpec.LookupItem(old(State()), remote, itemId, url2004, url2207).world
      ensures r == ClientSpec.LookupItem(old(State()), remote, itemId, url2004, url2207).result
    {
      var f := RefreshIfExpired();
      if f.Fail? {
        return Err(f.error);
      }
      var resp := ExecuteWithRetry(url2004);
      if HasStatus(resp, 404) {
        resp := ExecuteWithRetry(url2207);
      } else if HasStatus(resp, 401) {
        var again := Reauth(url2004);
        if again.Err? {
          return Err(again.error);
        }
        resp := again.value;
      }
      if HasStatus(resp, 404) {
        return Err(ItemNotFound(itemId));
      }
      var c := Conclude(resp, NullCalendarItem);
      if c.Err? {
        return Err(c.error);
      }
      if !c.value.ItemBody? {
        return Err(MalformedBody);
      }
      r := Ok(c.value.item);
    }

    /** The month loop of the year and week views: each month is fetched and
        its flattened entries appended, in order; the first failure is thrown. */
    method AppendMonths(year: int, months: seq<int>, parse: DateParser) returns (r: Result<seq<CalendarEntry>>)
      modifies this
      ensures State() == FetchMonths(old(State()), remote, year, months, parse).world
      ensures r == FetchMonths(old(State()), remote, year, months, parse).result
    {
      ghost var w0 := State();
      var list: seq<CalendarEntry> := [];
      var i := 0;
      while i < |months|
        invariant 0 <= i <= |months|
        invariant FetchMonths(w0, remote, year, months[..i], parse) == Step(State(), Ok(list))
      {
        assert months[..i + 1][..i] == months[..i];
        var dto := FetchMonth(year, months[i]);
        if dto.Err? {
          FetchMonthsAppend(w0, MonthCall(remote, year), months[..i + 1], months[i + 1..], parse);
          assert months[..i + 1] + months[i + 1..] == months;
          return Err(dto.error);
        }
        var entries := FlattenMonth(dto.value, parse);
        list := list + entries;
        i := i + 1;
      }
      assert months[..|months|] == months;
      r := Ok(list);
    }

    /** `GetCalendarYearAsync`: months 1 to 12 in order. */
    method GetCalendarYear(now: Instant, year: int, parse: DateParser) returns (r: Result<seq<CalendarEntry>>)
      modifies this
      ensures State() == ClientSpec.GetCalendarYear(old(State()).(clock := now), remote, year, parse).world
      ensures r == ClientSpec.GetCalendarYear(old(State()).(clock := now), remote, year, parse).result
    {
      clock := now;
      r := AppendMonths(year, YearMonths(), parse);
    }

    /** `GetCalendarWeekAsync`. */
    method GetCalendarWeek(now: Instant, dateInWeek: Instant, parse: DateParser) returns (r: Result<seq<CalendarEntry>>)
      modifies this
      ensures State() == ClientSpec.GetCalendarWeek(old(State()).(clock := now), remote, dateInWeek, parse).world
      ensures r == ClientSpec.GetCalendarWeek(old(State()).(clock := now), remote, dateInWeek, parse).result
    {
      clock := now;
      var monday := AddDays(DateOnly(dateInWeek), -DayOfWeek(dateInWeek) + Monday);
      var sundayExclusive := AddDays(monday, 7);
      var months := if Month(monday) == Month(sundayExclusive) then [Month(monday)]
                    else [Month(monday), Month(sundayExclusive)];
      var entries := AppendMonths(Year(monday), months, parse);
      if entries.Err? {
        return entries;
      }
      r := Ok(Filter(entries.value, InWeek(monday)));
    }

    /** `GetCalendarDayAsync`. */
    method GetCalendarDay(now: Instant, date: Instant, parse: DateParser) returns (r: Result<seq<CalendarEntry>>)
      modifies this
      ensures State() == ClientSpec.GetCalendarDay(old(State()).(clock := now), remote, date, parse).world
      ensures r == ClientSpec.GetCalendarDay(old(State()).(clock := now), remote, date, parse).result
    {
      clock := now;
      var dto := FetchMonth(Year(date), Month(date));
      if dto.Err? {
        return Err(dto.error);
      }
      var entries := FlattenMonth(dto.value, parse);
      r := Ok(Filter(entries, OnDay(date)));
    }
  }
}
