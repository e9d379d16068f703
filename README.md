# CoziSharp client core in Dafny

A model of the read-only Cozi client: the session and request policy of
`CoziClient` (login, authentication, the login check, the retry policy, the
401 re-authentication, the 2004 → 2207 item fallback, the year/week/day
calendar views), the flattening of a calendar month into (date, item)
entries, attendee resolution from an item's extension bag, the batch
enrichment helpers, the `Where*` filters, the derived values of the calendar
item, the bearer token and the endpoint paths.

Layout, one module per source file plus small helpers:

| file | module | models |
|---|---|---|
| common.dfy | `Common` | `Option`, the client's exceptions as `Failure`, `Result`, `Outcome` |
| seqs.dfy | `Seqs` | LINQ `Where` and `SelectMany` on sequences and their laws |
| text.dfy | `Text` | `Ordinal` / `OrdinalIgnoreCase` equality and `IndexOf` |
| dates.dfy | `Dates` | the part of `DateTime` the client uses: date part, `AddDays`, `DayOfWeek`, `Year`, `Month` |
| auth_token.dfy | `AuthTokens` | `AuthToken` and `IsExpired` |
| endpoints.dfy | `Endpoints` | `Login` and the path builders, with the `D4`/`D2` formats |
| models.dfy | `Models` | `CalendarItemDto` (defaults, `IsHoliday`, `Date`, `Start`, `End`, `StartDateTime`, `EndDateTime`), the month, people, lists, JSON values |
| attendee_helpers.dfy | `Attendees` | `GetAttendeesFromExtra` |
| calendar_helper.dfy | `CalendarHelpers` | `Flatten`, `CalendarEntry`, `CalendarEntryWithAttendees` |
| calendar_enrichment.dfy | `Enrichment` | `FlattenWithAttendeesAsync` and both `WithAttendeesAsync` overloads |
| calendar_filters.dfy | `Filters` | every filter of `CalendarFilterExtensions` |
| client_spec.dfy | `ClientSpec` | the request and session policy of `CoziClient` as functions of a world |
| cozi_client.dfy | `Client` | the class `CoziClient`, each method proved to compute its `ClientSpec` function |
| client_laws.dfy | `ClientLaws` | what the policy promises, proved of `ClientSpec` |

How the outside world is represented:

- The remote side is a fixed sequence of replies (`ClientSpec.Reply`): the
  k-th request the client ever sends receives the k-th reply, and past the
  end of the sequence the network is down. A reply is a status with a body
  that may be JSON `null`, or a transport exception.
- The client keeps, beside its private fields (`_username`, `_password`,
  `_token`, `_accountId`) and the bearer header, a log of the requests it
  sent, a log of the back-off waits it took and a clock. Every public method
  takes the wall clock as `now`; a back-off wait moves the clock forward.
- Instants are whole seconds since 0001-01-01 (a Monday), so `DayOfWeek` is
  Sunday = 0 as in .NET, and `Year`/`Month` are computed as `DateTime` does.
- `DateTime.TryParse`/`Parse` and `TimeSpan.Parse` are parameters of type
  `string -> Option<…>`.
- `Task.WhenAll` over the enrichment tasks is a sequential map in input
  order; its failure is that of the first failing entry.

Quirks of the code that the model keeps and proves:

- `EnsureLoggedIn` throws on an expired token, so the refresh branch of
  `SendAsync` never fires right after a passed check
  (`ClientLaws.NoRefreshAfterLoginCheck`).
- The re-send after a 401 bypasses the retry policy (`ClientLaws.SendOutcome`).
- A 401 on the 2004 item request never leads to a 2207 request
  (`ClientLaws.UnauthorizedItemNeverFallsBack`); a 404 on the re-send after
  that 401 is still reported as "not found in either 2004 or 2207"
  (`ClientLaws.UnauthorizedThenMissingIsNotFound`).
- The week view fetches both months with the Monday's year, so the week of
  Monday 30 December 2024 asks for January 2024 (`ClientLaws.WeekAcrossNewYear`),
  and a Sunday maps to the following Monday (`ClientLaws.WeekStartFacts`), so
  a Sunday's own entries never appear in its week view
  (`ClientLaws.SundayOutsideItsWeek`).
- Attendees come only from `Extra["householdMembers"]`; `AttendeeSet` is
  never read (`Attendees.AttendeeSetIgnored`).

Further facts about the code that the model follows: the retry policy makes
at most 3 retries, so at most 4 attempts; a data call with an expired token
throws "not authenticated" and never re-authenticates first; the item lookup
asks version 2004 and goes to 2207 only after a 404; `AttendeeSet` is never
read.

## Model

| member | source | states |
|---|---|---|
| AuthTokens.LiveIffMarginLeft | CoziSharp/Internal/AuthToken.cs:14 | a token is live exactly while more than 60 seconds remain before its expiry |
| AuthTokens.ExpiredWithinMargin | CoziSharp/Internal/AuthToken.cs:12-14 | a token whose expiry is at most 60 seconds away is expired |
| AuthTokens.ExpiryIsMonotone | CoziSharp/Internal/AuthToken.cs:14 | once expired, a token stays expired at every later instant |
| Endpoints.LoginVersion | CoziSharp/Internal/Endpoints.cs:9 | the login path lies under API version 2207 |
| Endpoints.AccountPrefixVersion | CoziSharp/Internal/Endpoints.cs:12-20 | the per-account prefix lies under API version 2004 |
| Endpoints.ListsUnderAccount | CoziSharp/Internal/Endpoints.cs:12 | the lists path starts with "api/ext/2004/" + accountId + "/" |
| Endpoints.ListByIdUnderAccount | CoziSharp/Internal/Endpoints.cs:13 | a single list's path starts with the account prefix |
| Endpoints.CalendarMonthUnderAccount | CoziSharp/Internal/Endpoints.cs:16-17 | a calendar-month path starts with the account prefix |
| Endpoints.PeopleUnderAccount | CoziSharp/Internal/Endpoints.cs:20 | the people path starts with the account prefix |
| Endpoints.CollectionPaths | CoziSharp/Internal/Endpoints.cs:12-20 | `ListById(a, id)` is `Lists(a) + id`; the lists and people paths end with "/" |
| Endpoints.FormatDRoundTrip | CoziSharp/Internal/Endpoints.cs:17 | the `D<width>` numeral reads back as the number and has at least `width` digits |
| Endpoints.FormatDFixedWidth | CoziSharp/Internal/Endpoints.cs:17 | a number below 10^width is written with exactly `width` digits, so months get two and years up to 9999 get four |
| Endpoints.CalendarMonthLayout | CoziSharp/Internal/Endpoints.cs:16-17 | the month path is prefix, "calendar/", four year digits, "/", two month digits, and both numerals read back as year and month |
| Endpoints.CalendarMonthInjective | CoziSharp/Internal/Endpoints.cs:16-17 | different (year, month) pairs of one account get different paths |
| Models.NewCalendarItem | CoziSharp/Models/CalendarItemDto.cs:9-31 | a fresh item has empty id, type, description and day, times "00:00:00", span 1, no optional parts, and is no holiday |
| Models.IsHoliday | CoziSharp/Models/CalendarItemDto.cs:41 | an item is a holiday iff its source exists and contains "Holiday" ignoring case; a null source is never a holiday |
| Models.DateTimesAreDatePlusTime | CoziSharp/Models/CalendarItemDto.cs:34-38 | start and end instants exist iff the day and the time parse, and are then the parsed date plus the parsed time |
| Models.StartStaysOnDate | CoziSharp/Models/CalendarItemDto.cs:34-37 | a start time within one day keeps the start instant on the item's date |
| Models.DateDependsOnlyOnDay | CoziSharp/Models/CalendarItemDto.cs:34 | items with the same day string have the same date |
| Text.IndexOf | CoziSharp/Helpers/CalendarFilterExtensions.cs:21 | `IndexOf` is non-negative iff the substring occurs, and is then its first occurrence |
| Text.OrdinalEqualsIsEquality | CoziSharp/Helpers/CalendarFilterExtensions.cs:14 | ordinal comparison is exact string equality |
| Text.IgnoreCaseFindsHoliday | CoziSharp/Models/CalendarItemDto.cs:41 | ignoring case, "holiday" is found in "US Holidays" at index 3 |
| Text.OrdinalRespectsCase | CoziSharp/Helpers/CalendarFilterExtensions.cs:29-30 | with ordinal comparison "holiday" is not found in "US Holidays" |
| Seqs.FilterMultiplicity | CoziSharp/Helpers/CalendarFilterExtensions.cs:8-10 | `Where` keeps every passing element exactly as often as the input holds it, and no other element |
| Seqs.FilterIsSubseq | CoziSharp/Helpers/CalendarFilterExtensions.cs:8-10 | `Where` keeps an order-preserving subsequence of its input |
| Attendees.MemberIdOf | CoziSharp/Helpers/AttendeeHelpers.cs:24-28 | a string element adds itself; an object adds the string of its "id" (null for a JSON null) and nothing without one; `GetString` throws exactly for an "id" that is neither string nor null; other elements add nothing |
| Attendees.GetAttendeesFromExtra | CoziSharp/Helpers/AttendeeHelpers.cs:12-31 | the collecting loop and the roster filter compute `AttendeesOf`, the roster people whose id was collected |
| Attendees.CollectStopsAtFailure | CoziSharp/Helpers/AttendeeHelpers.cs:21-28 | an element that throws ends the loop with that exception |
| Attendees.CollectFailsIffSomeElementFails | CoziSharp/Helpers/AttendeeHelpers.cs:21-28 | collecting throws iff some object element has an "id" that is neither a string nor null |
| Attendees.CollectedIdsAreContributed | CoziSharp/Helpers/AttendeeHelpers.cs:21-28 | an id is collected iff some element contributes it |
| Attendees.NoMembersArrayNoAttendees | CoziSharp/Helpers/AttendeeHelpers.cs:14-18 | a null bag, a missing "householdMembers" key or a non-array value gives no attendees and no error |
| Attendees.AttendeesAreRosterSubsequence | CoziSharp/Helpers/AttendeeHelpers.cs:30 | the attendees are an order-preserving subsequence of the roster, holding exactly the people whose id was collected, each as often as in the roster |
| Attendees.OnlyTheIdSetMatters | CoziSharp/Helpers/AttendeeHelpers.cs:30 | repeating or reordering ids selects the same people |
| Attendees.AttendeesAtMostRoster | CoziSharp/Helpers/AttendeeHelpers.cs:30 | never more attendees than people, and nobody more often than in the roster |
| Attendees.UnknownIdAmongKnownIgnored | CoziSharp/Helpers/AttendeeHelpers.cs:30 | adding an id that matches nobody to any ids changes no one's attendance |
| Attendees.UnknownIdsIgnored | CoziSharp/Helpers/AttendeeHelpers.cs:30 | ids that match nobody select nobody |
| Attendees.AttendeeSetIgnored | CoziSharp/Helpers/AttendeeHelpers.cs:12-30 | changing `AttendeeSet` never changes the attendees |
| Attendees.NewItemHasNoAttendees | CoziSharp/Helpers/AttendeeHelpers.cs:14-15 | a fresh item, whose `Extra` is null, has no attendees |
| CalendarHelpers.FlattenMonth | CoziSharp/Helpers/CalendarHelper.cs:20-32 | the nested loop yields exactly the entries of `Flatten`: day by day, the resolved references of every parsable day |
| CalendarHelpers.AppendDay | CoziSharp/Helpers/CalendarHelper.cs:26-30 | the inner loop appends the resolved references of one day, in order |
| CalendarHelpers.ResolveIsMapOfResolved | CoziSharp/Helpers/CalendarHelper.cs:26-30 | one entry per reference whose id is in `Items`, in reference order, carrying `Items[r.Id]` and the day's date; duplicate references give duplicate entries |
| CalendarHelpers.UnparsableDayIgnored | CoziSharp/Helpers/CalendarHelper.cs:24 | a day key that does not parse contributes nothing, wherever it stands |
| CalendarHelpers.UnresolvedRefIgnored | CoziSharp/Helpers/CalendarHelper.cs:28 | a reference absent from `Items` is dropped, wherever it stands |
| CalendarHelpers.ResolveSound | CoziSharp/Helpers/CalendarHelper.cs:26-29 | every entry of a day is dated by the day and carries the item of one of its references |
| CalendarHelpers.FlattenSound | CoziSharp/Helpers/CalendarHelper.cs:22-30 | every flattened entry is `Items[r.Id]` for a reference of a parsable day, dated by that day's parsed key rather than the item's own day |
| Enrichment.WithAttendees | CoziSharp/Helpers/CalendarHelper.cs:54-65 | the roster is fetched only when none is cached; the entry keeps date and item and gets the resolved attendees |
| Enrichment.EnrichEach | CoziSharp/Helpers/CalendarHelper.cs:79-80 | enriching every entry with one roster sends nothing and gives `EnrichAll` |
| Enrichment.WithAttendeesList | CoziSharp/Helpers/CalendarHelper.cs:70-81 | one people fetch, then every entry enriched with that roster |
| Enrichment.FlattenMonthWithAttendees | CoziSharp/Helpers/CalendarHelper.cs:37-49 | one people fetch, then every flattened entry enriched with that roster |
| Enrichment.EnrichStopsAtFailure | CoziSharp/Helpers/CalendarHelper.cs:79-80 | the first entry that fails decides the failure of the batch |
| Enrichment.EnrichAllShape | CoziSharp/Helpers/CalendarHelper.cs:63-64 | a successful batch has the input's length and order, each entry keeping date and item with its attendees resolved |
| Enrichment.EnrichFailsIffSomeEntryFails | CoziSharp/Helpers/CalendarHelper.cs:79-80 | a batch fails iff resolving some entry's attendees throws |
| Enrichment.RosterFetchedOnce | CoziSharp/Helpers/CalendarHelper.cs:76-79 | the batch sends exactly the requests of one people fetch, whatever the entries |
| Enrichment.CachedRosterSendsNothing | CoziSharp/Helpers/CalendarHelper.cs:60 | with a cached roster the single-entry helper sends nothing |
| Enrichment.MonthIsListOfFlattened | CoziSharp/Helpers/CalendarHelper.cs:42-48 | enriching a month is batch enrichment of its flattened entries |
| Filters.Where | CoziSharp/Helpers/CalendarFilterExtensions.cs:8-10 | an order-preserving subsequence holding exactly the entries whose item passes, each as often as in the input |
| Filters.WhereIdEquals | CoziSharp/Helpers/CalendarFilterExtensions.cs:13-14 | exactly the entries whose id equals the given id, as an order-preserving subsequence, each as often as in the input, in input order |
| Filters.WhereItemTypeEquals | CoziSharp/Helpers/CalendarFilterExtensions.cs:17-18 | exactly the entries whose type equals the given one under the comparison, each as often as in the input, in input order |
| Filters.WhereItemTypeContains | CoziSharp/Helpers/CalendarFilterExtensions.cs:20-21 | exactly the entries whose type contains the substring, each as often as in the input, in input order |
| Filters.WhereDescriptionContains | CoziSharp/Helpers/CalendarFilterExtensions.cs:24-26 | exactly the entries whose description or short description contains the substring, each as often as in the input, in input order |
| Filters.WhereItemSourceContains | CoziSharp/Helpers/CalendarFilterExtensions.cs:29-30 | exactly the entries with a source containing the substring, each as often as in the input, in input order |
| Filters.WhereItemSourceDoesNotContain | CoziSharp/Helpers/CalendarFilterExtensions.cs:32-33 | exactly the entries with no source or a source without the substring, each as often as in the input, in input order |
| Filters.WhereDateEquals | CoziSharp/Helpers/CalendarFilterExtensions.cs:36-37 | exactly the entries on the same calendar date, each as often as in the input, in input order |
| Filters.WhereDateOnOrAfter | CoziSharp/Helpers/CalendarFilterExtensions.cs:39-40 | exactly the entries on or after the date's calendar day, each as often as in the input, in input order |
| Filters.WhereDateBefore | CoziSharp/Helpers/CalendarFilterExtensions.cs:42-43 | exactly the entries before the date's calendar day, each as often as in the input, in input order |
| Filters.WhereDateBetween | CoziSharp/Helpers/CalendarFilterExtensions.cs:45-46 | exactly the entries whose calendar day lies in [from, to), each as often as in the input, in input order |
| Filters.WhereLocationContains | CoziSharp/Helpers/CalendarFilterExtensions.cs:49-50 | exactly the entries with details whose location contains the substring, each as often as in the input, in input order |
| Filters.WhereNotesContains | CoziSharp/Helpers/CalendarFilterExtensions.cs:52-53 | exactly the entries with details whose notes contain the substring, each as often as in the input, in input order |
| Filters.WhereIsHoliday | CoziSharp/Helpers/CalendarFilterExtensions.cs:56-57 | exactly the entries whose source contains "Holiday" ignoring case, each as often as in the input, in input order |
| Filters.WhereIsNotHoliday | CoziSharp/Helpers/CalendarFilterExtensions.cs:59-60 | exactly the entries with no source or one without "Holiday", each as often as in the input, in input order |
| Filters.WhereReadOnly | CoziSharp/Helpers/CalendarFilterExtensions.cs:62-63 | exactly the entries whose read-only flag, missing counting as false, equals the argument, each as often as in the input, in input order |
| Filters.WhereDateSpanEquals | CoziSharp/Helpers/CalendarFilterExtensions.cs:65-66 | exactly the entries with the given span, each as often as in the input, in input order |
| Filters.ItemSourcePartition | CoziSharp/Helpers/CalendarFilterExtensions.cs:29-33 | Contains and DoesNotContain partition the input; a null source goes to DoesNotContain |
| Filters.HolidayPartition | CoziSharp/Helpers/CalendarFilterExtensions.cs:56-60 | holidays and non-holidays partition the input |
| Filters.DateBetweenIsComposition | CoziSharp/Helpers/CalendarFilterExtensions.cs:39-46 | `WhereDateBetween(a, b)` is `WhereDateBefore(WhereDateOnOrAfter(src, a), b)` |
| Filters.NotContainsIsDoesNotContain | CoziSharp/Helpers/CalendarFilterExtensions.cs:69-70 | the composite helper is the same filter as DoesNotContain |
| Filters.NotReadOnlyKeepsMissingDetails | CoziSharp/Helpers/CalendarFilterExtensions.cs:62-63 | `WhereReadOnly(false)` keeps, and `WhereReadOnly()` drops, an entry without details |
| Filters.DefaultComparisonIgnoresCase | CoziSharp/Helpers/CalendarFilterExtensions.cs:29-30 | under the default comparison "holiday" matches a "US Holidays" source |
| ClientSpec.YearMonths | CoziSharp/CoziClient.cs:193 | the year view's months are 1 to 12 in order |
| ClientLaws.AttemptsBounds | CoziSharp/CoziClient.cs:54-57 | between one and four attempts; every attempt but the last got a transient reply, and the last did only when no retry was left |
| ClientLaws.RetryFromSends | CoziSharp/CoziClient.cs:54-57 | the policy re-sends the same GET once per attempt, changes no session field and hands back the last reply |
| ClientLaws.RetryFromWaits | CoziSharp/CoziClient.cs:57 | the waits between attempts are 2^n seconds for retry n |
| ClientLaws.RetryFromClock | CoziSharp/CoziClient.cs:57 | the clock moves by exactly the sum of the waits |
| ClientLaws.RetryShape | CoziSharp/CoziClient.cs:54-57 | from the first attempt: 1 to 4 GETs, waits 2, 4, 8 between them, the last reply returned |
| ClientLaws.RetryScenario | CoziSharp/CoziClient.cs:54-57 | replies 500, 500, 200 give three GETs and exactly two waits, of 2 and 4 seconds |
| ClientLaws.NoRetryOnDefinitiveReply | CoziSharp/CoziClient.cs:54-56 | a reply below 500 that is no exception is taken at once, without a wait |
| ClientLaws.AuthenticateEffect | CoziSharp/CoziClient.cs:232-243 | one POST of the stored credentials; success iff a 2xx with a body, which sets token (access token, now + expiresIn), account id and bearer; otherwise the session is unchanged |
| ClientLaws.AuthenticateFailures | CoziSharp/CoziClient.cs:235-238 | a transport failure, a non-2xx status and a null body each throw their own exception |
| ClientLaws.LoginEffect | CoziSharp/CoziClient.cs:62-67 | a null username changes and sends nothing; a null password stores only the username; otherwise the POST carries the new credentials |
| ClientLaws.LoginThenLoggedIn | CoziSharp/CoziClient.cs:62-67 | right after a successful login the client is logged in iff the server granted more than 60 seconds |
| ClientLaws.ConcludeOk | CoziSharp/CoziClient.cs:269-270 | a value iff a 2xx response with a non-null body, which is then the value; a non-2xx status throws with that status |
| ClientLaws.NoRefreshAfterLoginCheck | CoziSharp/CoziClient.cs:258-259 | after a passed login check at the same instant the refresh branch does nothing |
| ClientLaws.SendOutcome | CoziSharp/CoziClient.cs:256-271 | without a 401 the retried reply decides; on a 401 one authentication and, if it passes, exactly one un-retried GET of the same path with the new bearer decides |
| ClientLaws.DataCallsRequireLogin | CoziSharp/CoziClient.cs:245-249 | with no token or an expired one every data call throws "not authenticated" and changes and sends nothing |
| ClientLaws.MonthValidatedBeforeRequest | CoziSharp/CoziClient.cs:83-89 | a month outside 1..12 throws before any request, the login check first |
| ClientLaws.ItemPathsDiffer | CoziSharp/CoziClient.cs:126-127 | the 2004 and 2207 item paths differ |
| ClientLaws.ItemOutcomeFacts | CoziSharp/CoziClient.cs:145-153 | the final reply gives the item iff it is a 2xx carrying one; a 404 is "not found"; another non-2xx throws with its status; a null body throws the null-item failure |
| ClientLaws.ItemLookup | CoziSharp/CoziClient.cs:122-154 | a 404 from 2004 falls back to one retried 2207 request whose reply decides the result; a 401 re-authenticates once, throws if that fails, and otherwise lets one un-retried re-send to 2004 decide; any other reply decides as it is |
| ClientLaws.UnauthorizedThenMissingIsNotFound | CoziSharp/CoziClient.cs:139-146 | a 401 on 2004 followed by a 404 on the re-send throws "not found in either 2004 or 2207", though 2207 was never asked |
| ClientLaws.UnauthorizedItemNeverFallsBack | CoziSharp/CoziClient.cs:139-143 | after a 401 on the 2004 item request no request goes to the 2207 path |
| ClientLaws.WeekStartFacts | CoziSharp/CoziClient.cs:203-204 | the week starts at a Monday midnight containing the date, except that a Sunday maps to the following Monday |
| ClientLaws.SundayOutsideItsWeek | CoziSharp/CoziClient.cs:203-213 | for a Sunday, no entry dated that day lies in its week window, so the week view never holds the Sunday's entries and none of the day view's entries lies in the week |
| ClientLaws.WeekMonthsFacts | CoziSharp/CoziClient.cs:206-208 | the week view fetches one or two distinct months in 1..12: the Monday's, then the window end's |
| ClientLaws.FetchMonthsAppend | CoziSharp/CoziClient.cs:193-197 | the month loop over `a + b` is the loop over `a` then over `b`, entries concatenated, the first failure ending it |
| ClientLaws.YearNeverOutOfRange | CoziSharp/CoziClient.cs:190-199 | the year view never throws the month-range exception |
| ClientLaws.WeekNeverOutOfRange | CoziSharp/CoziClient.cs:201-214 | the week view never throws the month-range exception |
| ClientLaws.DayNeverOutOfRange | CoziSharp/CoziClient.cs:216-220 | the day view never throws the month-range exception |
| ClientLaws.ViewsRequireLogin | CoziSharp/CoziClient.cs:190-220 | without a live token every view throws "not authenticated" and sends nothing |
| ClientLaws.WeekWindow | CoziSharp/CoziClient.cs:213 | the week view keeps, in order, exactly the fetched entries with monday <= Date < monday + 7, each as often as fetched |
| ClientLaws.DayWindow | CoziSharp/CoziClient.cs:219 | the day view keeps, in order, exactly the month's entries on the same calendar date, each as often as flattened |
| ClientLaws.WeekAcrossNewYear | CoziSharp/CoziClient.cs:206-210 | for the week of 30 December 2024 the view asks for months 12 and 1 both with year 2024 |
| Client.CoziClient.constructor | CoziSharp/CoziClient.cs:48-58 | a new client has no credentials, token, account id or bearer, and has sent nothing |
| Client.CoziClient.ExecuteWithRetry | CoziSharp/CoziClient.cs:54-57 | the attempt loop computes the retry policy `Retry` |
| Client.CoziClient.Authenticate | CoziSharp/CoziClient.cs:232-243 | updates the session exactly as `Authenticate` |
| Client.CoziClient.EnsureLoggedIn | CoziSharp/CoziClient.cs:245-249 | passes iff a token is held and not expired, otherwise throws "not authenticated" |
| Client.CoziClient.ValidateMonth | CoziSharp/CoziClient.cs:251-254 | passes iff the month is in 1..12, otherwise throws the range exception |
| Client.CoziClient.RefreshIfExpired | CoziSharp/CoziClient.cs:258-259 | authenticates iff a held token has expired |
| Client.CoziClient.Reauth | CoziSharp/CoziClient.cs:263-267 | one authentication, then one un-retried re-send if it passed |
| Client.CoziClient.Send | CoziSharp/CoziClient.cs:256-271 | computes `SendAsync` as `ClientSpec.Send` |
| Client.CoziClient.Login | CoziSharp/CoziClient.cs:62-67 | computes `LoginAsync` as `ClientSpec.Login` |
| Client.CoziClient.GetLists | CoziSharp/CoziClient.cs:69-74 | login check, then one send of the lists path |
| Client.CoziClient.GetList | CoziSharp/CoziClient.cs:76-81 | login check, then one send of the list path |
| Client.CoziClient.FetchMonth | CoziSharp/CoziClient.cs:83-89 | login check, month check, then one send of the month path |
| Client.CoziClient.GetCalendarMonth | CoziSharp/CoziClient.cs:83-89 | `GetCalendarMonthAsync` at the given instant |
| Client.CoziClient.GetPeople | CoziSharp/CoziClient.cs:112-117 | login check, then one send of the people path |
| Client.CoziClient.GetCalendarItem | CoziSharp/CoziClient.cs:122-154 | login check, then the item lookup with both paths formed first |
| Client.CoziClient.LookupItem | CoziSharp/CoziClient.cs:129-153 | refresh, the 2004 request with its 404 fallback or 401 re-send, then the conclusion |
| Client.CoziClient.AppendMonths | CoziSharp/CoziClient.cs:193-197 | the month loop fetches and flattens the months in order, stopping at the first failure |
| Client.CoziClient.GetCalendarYear | CoziSharp/CoziClient.cs:190-199 | months 1 to 12 fetched, flattened and concatenated |
| Client.CoziClient.GetCalendarWeek | CoziSharp/CoziClient.cs:201-214 | the week's months fetched with the Monday's year, then filtered to the window |
| Client.CoziClient.GetCalendarDay | CoziSharp/CoziClient.cs:216-220 | the date's month flattened and filtered to the date |

## Left out

- HTTP, Polly and headers: requests are values logged in order, replies a fixed script; the User-Agent header, the base address and `DisposeAsync` are not modelled.
- JSON: deserialisation is replaced by typed bodies (`ClientSpec.Payload`); a body of the wrong shape is one `MalformedBody` failure. Extension values are a small `JsonValue` datatype.
- Cancellation tokens are not modelled, and neither is the concurrency of `Task.WhenAll`: enrichment runs in input order and the first failing entry decides the failure.
- `GetCalendarMonthRawAsync` and `GetCalendarItemRawAsync` repeat the policy of `SendAsync` and `GetCalendarItemAsync` and return the body as text; they are not modelled separately.
- `CalendarHelpers.PrintFull` only writes to the console; `LoginHelpers.TryLoginAsync` is a try/catch wrapper; neither is modelled.
- `DateTime.Parse`/`TryParse` and `TimeSpan.Parse` are parameters; culture, time zones and the range limits of `DateTime` are not modelled (instants are unbounded integers).
- `OrdinalIgnoreCase` folds ASCII letters only; the full Unicode case mapping of .NET is not modelled.
- The filters take only `Ordinal` and `OrdinalIgnoreCase`; the culture-sensitive comparisons (`CurrentCulture`, `CurrentCultureIgnoreCase`, `InvariantCulture`, `InvariantCultureIgnoreCase`) are not modelled.
- The only transport exception is the `HttpRequestException` the retry policy handles; other exceptions from a send, such as the `TaskCanceledException` of an HttpClient timeout, which the policy does not retry and which end the call at once, are not modelled.
- The login check and the refresh of a data call read one clock value, so the refresh branch of `SendAsync`, which in the code can fire only when the token expires between the two clock readings, is modelled but never reached right after a passed check.
- `AttendeeHelpers` reads `AccountPersonId` while `PersonDto` declares `PersonId`; persons carry a single id field.
- `ListDto` line items, the remaining fields of the people and month records and the field-only DTOs are not modelled.
- The private `AuthToken` of `CoziClient` is the same type as the public one in the model, since both state the same predicate.
