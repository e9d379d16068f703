/** The request and session policy of `CoziClient` (CoziClient.cs) as functions
    of a world: the session fields of the client, the requests it has sent,
    the back-off waits it has taken and the clock. The remote side is a fixed
    sequence of replies: the k-th request ever sent receives `ReplyTo(remote, k)`.
    The class `Client.CoziClient` is proved to compute exactly these functions;
    the lemmas of this module state what the policy promises. */
module ClientSpec {
  import opened Common
  import opened Seqs
  import opened Dates
  import opened Models
  import opened AuthTokens
  import opened CalendarHelpers
  import Endpoints

  /** `WaitAndRetryAsync(3, …)`: three retries, so at most four attempts. */
  const MaxRetries := 3

  /** The bodies the client deserialises, by target type. */
  datatype Payload =
    | AuthBody(accessToken: string, expiresIn: int, accountId: string)
    | ListsBody(lists: seq<ListRecord>)
    | ListBody(list: ListRecord)
    | MonthBody(month: CalendarMonth)
    | ItemBody(item: CalendarItem)
    | PeopleBody(people: seq<Person>)

  /** What one request receives: a response whose body may be JSON `null`
      (None), or a transport failure (`HttpRequestException`). */
  datatype Reply = Response(status: int, body: Option<Payload>) | NetworkFault

  /** A request as the server sees it, with the bearer header it carried. */
  datatype Request =
    | Get(path: string, bearer: Option<string>)
    | PostLogin(username: Option<string>, password: Option<string>, bearer: Option<string>)

  /** The private fields of the client plus its authorization header. */
  datatype Session = Session(
    username: Option<string>,
    password: Option<string>,
    token: Option<AuthToken>,
    accountId: Option<string>,
    bearer: Option<string>)

  /** The session, every request sent so far, every back-off wait taken so far
      (in seconds) and the clock. */
  datatype World = World(session: Session, sent: seq<Request>, waits: seq<nat>, clock: Instant)

  /** The new world after an operation together with what the operation returned. */
  datatype Step<+T> = Step(world: World, result: T)

  /** A freshly constructed client: no credentials, no token, nothing sent. */
  function Initial(clock: Instant): World
  {
    World(Session(None, None, None, None, None), [], [], clock)
  }

  /** The reply to the k-th request; past the script the network is down. */
  function ReplyTo(remote: seq<Reply>, k: nat): Reply
  {
    if k < |remote| then remote[k] else NetworkFault
  }

  /** `EnsureSuccessStatusCode`: 2xx. */
  predicate IsSuccess(status: int)
  {
    200 <= status <= 299
  }

  /** A response with status code `s`. */
  predicate HasStatus(reply: Reply, s: int)
  {
    reply.Response? && reply.status == s
  }

  /** The retry policy handles a transport exception or a status of 500 or more. */
  predicate Transient(reply: Reply)
  {
    reply.NetworkFault? || reply.status >= 500
  }

  function Pow2(n: nat): (r: nat)
    ensures r >= 1
  {
    if n == 0 then 1 else 2 * Pow2(n - 1)
  }

  /** An interpolated `string?`: null renders as the empty string. */
  function Interp(s: Option<string>): string
  {
    if s.None? then "" else s.value
  }

  /** Sending one request: it is logged and receives the next reply. */
  function Exchange(w: World, remote: seq<Reply>, req: Request): Step<Reply>
  {
    Step(w.(sent := w.sent + [req]), ReplyTo(remote, |w.sent|))
  }

  /** The GET of `path` with the current authorization header. */
  function GetOf(w: World, path: string): Request
  {
    Get(path, w.session.bearer)
  }

  /** Waiting `seconds` before a retry. */
  function Pause(w: World, seconds: nat): World
  {
    w.(waits := w.waits + [seconds], clock := w.clock + seconds)
  }

  /** Attempt number `retry + 1` of a GET through the retry policy. */
  function RetryFrom(w: World, remote: seq<Reply>, path: string, retry: nat): Step<Reply>
    requires retry <= MaxRetries
    decreases MaxRetries - retry, 1
  {
    var s := Exchange(w, remote, GetOf(w, path));
    RetryAfter(s.world, remote, path, s.result, retry)
  }

  /** The policy's decision after attempt `retry + 1` received `reply`: retry
      after 2^(retry+1) seconds while the reply is transient and retries are
      left, otherwise hand the reply (or rethrow the exception) to the caller. */
  function RetryAfter(w: World, remote: seq<Reply>, path: string, reply: Reply, retry: nat): Step<Reply>
    requires retry <= MaxRetries
    decreases MaxRetries - retry, 0
  {
    if Transient(reply) && retry < MaxRetries then
      RetryFrom(Pause(w, Pow2(retry + 1)), remote, path, retry + 1)
    else Step(w, reply)
  }

  /** How many attempts the policy makes from attempt `retry + 1` on, when that
      attempt receives reply number `k`: one more for every transient reply,
      while retries are left. */
  function AttemptsFrom(remote: seq<Reply>, k: nat, retry: nat): nat
    requires retry <= MaxRetries
    decreases MaxRetries - retry
  {
    if Transient(ReplyTo(remote, k)) && retry < MaxRetries then 1 + AttemptsFrom(remote, k + 1, retry + 1) else 1
  }

  /** The waits 2^first, 2^(first+1), … of `count` retries. */
  function Backoff(first: nat, count: nat): seq<nat>
    decreases count
  {
    if count == 0 then [] else [Pow2(first)] + Backoff(first + 1, count - 1)
  }

  /** `_retry.ExecuteAsync(() => _http.GetAsync(path))`. */
  function Retry(w: World, remote: seq<Reply>, path: string): Step<Reply>
  {
    RetryFrom(w, remote, path, 0)
  }

  /** `AuthenticateAsync`: one POST of the credentials, not retried. A 2xx
      reply with an authentication body replaces token, account id and bearer
      header; every other reply throws and changes nothing. */
  function Authenticate(w: World, remote: seq<Reply>): Step<Outcome>
  {
    var s := w.session;
    var x := Exchange(w, remote, PostLogin(s.username, s.password, s.bearer));
    var reply := x.result;
    if reply.NetworkFault? then Step(x.world, Fail(NetworkFailure))
    else if !IsSuccess(reply.status) then Step(x.world, Fail(HttpStatus(reply.status)))
    else if reply.body.None? then Step(x.world, Fail(EmptyAuthResponse))
    else if !reply.body.value.AuthBody? then Step(x.world, Fail(MalformedBody))
    else
      var b := reply.body.value;
      var token := AuthToken(b.accessToken, w.clock + b.expiresIn);
      Step(x.world.(session := s.(token := Some(token), accountId := Some(b.accountId), bearer := Some(b.accessToken))), Pass)
  }

  /** `EnsureLoggedIn`: there is a token and it has not expired. */
  function EnsureLoggedIn(w: World): Outcome
  {
    if w.session.token.None? || w.session.token.value.IsExpired(w.clock) then Fail(NotAuthenticated) else Pass
  }

  /** `ValidateMonth`. */
  function ValidateMonth(month: int): Outcome
  {
    if month < 1 || month > 12 then Fail(MonthOutOfRange) else Pass
  }

  /** `if (_token is { IsExpired: true }) await AuthenticateAsync()`. */
  function RefreshIfExpired(w: World, remote: seq<Reply>): Step<Outcome>
  {
    if w.session.token.Some? && w.session.token.value.IsExpired(w.clock) then Authenticate(w, remote)
    else Step(w, Pass)
  }

  /** The 401 branch: authenticate, then send `path` once more without the
      retry policy. */
  function Reauth(w: World, remote: seq<Reply>, path: string): Step<Result<Reply>>
  {
    var a := Authenticate(w, remote);
    if a.result.Fail? then Step(a.world, Err(a.result.error))
    else
      var x := Exchange(a.world, remote, GetOf(a.world, path));
      Step(x.world, Ok(x.result))
  }

  /** `EnsureSuccessStatusCode` followed by the null check of the body;
      `nullError` is the failure the caller raises for a null body. */
  function Conclude(reply: Reply, nullError: Failure): Result<Payload>
  {
    if reply.NetworkFault? then Err(NetworkFailure)
    else if !IsSuccess(reply.status) then Err(HttpStatus(reply.status))
    else if reply.body.None? then Err(nullError)
    else Ok(reply.body.value)
  }

  /** `SendAsync` of a GET of `path`. */
  function Send(w: World, remote: seq<Reply>, path: string): Step<Result<Payload>>
  {
    var f := RefreshIfExpired(w, remote);
    if f.result.Fail? then Step(f.world, Err(f.result.error))
    else
      var r := Retry(f.world, remote, path);
      if HasStatus(r.result, 401) then
        var a := Reauth(r.world, remote, path);
        if a.result.Err? then Step(a.world, Err(a.result.error))
        else Step(a.world, Conclude(a.result.value, NullContent))
      else Step(r.world, Conclude(r.result, NullContent))
  }

  /** `LoginAsync`: a null username throws at once; otherwise the username is
      stored, then a null password throws; otherwise the password is stored and
      the client authenticates. */
  function Login(w: World, remote: seq<Reply>, username: Option<string>, password: Option<string>): Step<Outcome>
  {
    if username.None? then Step(w, Fail(NullArgument("username")))
    else
      var w1 := w.(session := w.session.(username := username));
      if password.None? then Step(w1, Fail(NullArgument("password")))
      else Authenticate(w1.(session := w1.session.(password := password)), remote)
  }

  // -------------------------------------------------------------------------
  // The data calls: each checks the login, then sends one path.
  // -------------------------------------------------------------------------

  function GetLists(w: World, remote: seq<Reply>): Step<Result<seq<ListRecord>>>
  {
    if EnsureLoggedIn(w).Fail? then Step(w, Err(NotAuthenticated))
    else
      var s := Send(w, remote, Endpoints.Lists(Interp(w.session.accountId)));
      Step(s.world, if s.result.Err? then Err(s.result.error)
                    else if s.result.value.ListsBody? then Ok(s.result.value.lists)
                    else Err(MalformedBody))
  }

  function GetList(w: World, remote: seq<Reply>, listId: string): Step<Result<ListRecord>>
  {
    if EnsureLoggedIn(w).Fail? then Step(w, Err(NotAuthenticated))
    else
      var s := Send(w, remote, Endpoints.ListById(Interp(w.session.accountId), listId));
      Step(s.world, if s.result.Err? then Err(s.result.error)
                    else if s.result.value.ListBody? then Ok(s.result.value.list)
                    else Err(MalformedBody))
  }

  function GetCalendarMonth(w: World, remote: seq<Reply>, year: int, month: int): Step<Result<CalendarMonth>>
  {
    if EnsureLoggedIn(w).Fail? then Step(w, Err(NotAuthenticated))
    else if ValidateMonth(month).Fail? then Step(w, Err(MonthOutOfRange))
    else
      var s := Send(w, remote, Endpoints.CalendarMonth(Interp(w.session.accountId), year, month));
      Step(s.world, if s.result.Err? then Err(s.result.error)
                    else if s.result.value.MonthBody? then Ok(s.result.value.month)
                    else Err(MalformedBody))
  }

  function GetPeople(w: World, remote: seq<Reply>): Step<Result<seq<Person>>>
  {
    if EnsureLoggedIn(w).Fail? then Step(w, Err(NotAuthenticated))
    else
      var s := Send(w, remote, Endpoints.People(Interp(w.session.accountId)));
      Step(s.world, if s.result.Err? then Err(s.result.error)
                    else if s.result.value.PeopleBody? then Ok(s.result.value.people)
                    else Err(MalformedBody))
  }

  /** The item path of API version `version` ("2004" or "2207"). */
  function ItemPath(version: string, accountId: string, itemId: string): string
  {
    "api/ext/" + version + "/" + accountId + "/calendar/item/" + itemId
  }

  /** The reply the item lookup ends with: a 404 from version 2004 falls back
      to a retried request to 2207, a 401 re-authenticates and re-sends to
      2004 once, anything else stands. */
  function ItemReply(w: World, remote: seq<Reply>, p2004: string, p2207: string): Step<Result<Reply>>
  {
    var r := Retry(w, remote, p2004);
    if HasStatus(r.result, 404) then
      var f := Retry(r.world, remote, p2207);
      Step(f.world, Ok(f.result))
    else if HasStatus(r.result, 401) then Reauth(r.world, remote, p2004)
    else Step(r.world, Ok(r.result))
  }

  /** `GetCalendarItemAsync`: both paths are formed before any refresh. */
  function GetCalendarItem(w: World, remote: seq<Reply>, itemId: string): Step<Result<CalendarItem>>
  {
    if EnsureLoggedIn(w).Fail? then Step(w, Err(NotAuthenticated))
    else
      var acc := Interp(w.session.accountId);
      LookupItem(w, remote, itemId, ItemPath("2004", acc, itemId), ItemPath("2207", acc, itemId))
  }

  /** The item call after the login check: refresh, the requests, and the
      conclusion, where a final 404 means "not found in either version". */
  function LookupItem(w: World, remote: seq<Reply>, itemId: string, p2004: string, p2207: string): Step<Result<CalendarItem>>
  {
    var f := RefreshIfExpired(w, remote);
    if f.result.Fail? then Step(f.world, Err(f.result.error))
    else
      var r := ItemReply(f.world, remote, p2004, p2207);
      if r.result.Err? then Step(r.world, Err(r.result.error))
      else Step(r.world, ItemOutcome(r.result.value, itemId))
  }

  /** What the item call makes of the reply it ends with: a 404 is "not found
      in either 2004 or 2207", then `EnsureSuccessStatusCode`, the null check
      and the deserialisation. */
  function ItemOutcome(reply: Reply, itemId: string): Result<CalendarItem>
  {
    if HasStatus(reply, 404) then Err(ItemNotFound(itemId))
    else
      var c := Conclude(reply, NullCalendarItem);
      if c.Err? then Err(c.error)
      else if c.value.ItemBody? then Ok(c.value.item)
      else Err(MalformedBody)
  }

  // -------------------------------------------------------------------------
  // The calendar views.
  // -------------------------------------------------------------------------

  /** A call that fetches one month, from a given world. */
  type MonthFetch = (World, int) -> Step<Result<CalendarMonth>>

  /** `GetCalendarMonthAsync(year, month)` as a `MonthFetch`. */
  function MonthCall(remote: seq<Reply>, year: int): MonthFetch
  {
    (w: World, month: int) => GetCalendarMonth(w, remote, year, month)
  }

  /** Fetching and flattening `months` in order with `fetch`, appending each
      month's entries; the first failure ends the fetching. */
  function FetchMonthsWith(w: World, fetch: MonthFetch, months: seq<int>, parse: DateParser)
    : Step<Result<seq<CalendarEntry>>>
  {
    if months == [] then Step(w, Ok([]))
    else FetchNext(FetchMonthsWith(w, fetch, months[..|months| - 1], parse), fetch, months[|months| - 1], parse)
  }

  /** One turn of the month loop: unless an earlier month failed, fetch `month`
      and append its flattened entries. */
  function FetchNext(s: Step<Result<seq<CalendarEntry>>>, fetch: MonthFetch, month: int, parse: DateParser)
    : Step<Result<seq<CalendarEntry>>>
  {
    if s.result.Err? then s
    else
      var m := fetch(s.world, month);
      if m.result.Err? then Step(m.world, Err(m.result.error))
      else Step(m.world, Ok(s.result.value + Flatten(m.result.value, parse)))
  }

  /** The months of `year`, fetched through `GetCalendarMonthAsync`. */
  function FetchMonths(w: World, remote: seq<Reply>, year: int, months: seq<int>, parse: DateParser)
    : Step<Result<seq<CalendarEntry>>>
  {
    FetchMonthsWith(w, MonthCall(remote, year), months, parse)
  }

  /** Months 1 to 12. */
  function YearMonths(): (r: seq<int>)
    ensures |r| == 12 && forall i :: 0 <= i < 12 ==> r[i] == i + 1
  {
    [1, 2, 3, 4, 5, 6, 7, 8, 9, 10, 11, 12]
  }

  function GetCalendarYear(w: World, remote: seq<Reply>, year: int, parse: DateParser): Step<Result<seq<CalendarEntry>>>
  {
    FetchMonths(w, remote, year, YearMonths(), parse)
  }

  /** `dateInWeek.Date.AddDays(-(int)dateInWeek.DayOfWeek + (int)DayOfWeek.Monday)`. */
  function WeekStart(d: Instant): Instant
  {
    AddDays(DateOnly(d), -DayOfWeek(d) + Monday)
  }

  /** The enumeration of `new HashSet<int> { monday.Month, sundayExclusive.Month }`:
      insertion order, the second month dropped when it equals the first. */
  function WeekMonths(d: Instant): seq<int>
  {
    var monday := WeekStart(d);
    if Month(monday) == Month(AddDays(monday, 7)) then [Month(monday)]
    else [Month(monday), Month(AddDays(monday, 7))]
  }

  /** The week window `monday <= e.Date < sundayExclusive`. */
  function InWeek(monday: Instant): CalendarEntry -> bool
  {
    (e: CalendarEntry) => monday <= e.date < AddDays(monday, 7)
  }

  /** `GetCalendarWeekAsync`: every month is fetched with the year of the Monday. */
  function GetCalendarWeek(w: World, remote: seq<Reply>, d: Instant, parse: DateParser): Step<Result<seq<CalendarEntry>>>
  {
    var monday := WeekStart(d);
    var s := FetchMonths(w, remote, Year(monday), WeekMonths(d), parse);
    if s.result.Err? then s else Step(s.world, Ok(Filter(s.result.value, InWeek(monday))))
  }

  /** The day window `e.Date.Date == date.Date`. */
  function OnDay(d: Instant): CalendarEntry -> bool
  {
    (e: CalendarEntry) => DateOnly(e.date) == DateOnly(d)
  }

  /** `GetCalendarDayAsync`. */
  function GetCalendarDay(w: World, remote: seq<Reply>, d: Instant, parse: DateParser): Step<Result<seq<CalendarEntry>>>
  {
    var m := GetCalendarMonth(w, remote, Year(d), Month(d));
    if m.result.Err? then Step(m.world, Err(m.result.error))
    else Step(m.world, Ok(Filter(Flatten(m.result.value, parse), OnDay(d))))
  }
}
