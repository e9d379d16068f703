/** The attendee-enriching helpers of Helpers/CalendarHelper.cs: a single entry
    enriched with a given roster or with one fetched on demand, a list of
    entries enriched with one roster fetch, and a month flattened and enriched
    the same way. `Task.WhenAll` is modelled as a sequential, order-preserving
    map whose failure is the first failing entry's. */
module Enrichment {
  import opened Common
  import opened Models
  import opened Attendees
  import opened CalendarHelpers
  import opened ClientSpec
  import opened Client

  /** `WithAttendeesAsync(entry, client, roster)` once the roster is known. */
  function EnrichEntry(e: CalendarEntry, roster: seq<Person>): Result<CalendarEntryWithAttendees>
  {
    var a := AttendeesOf(e.item, roster);
    if a.Err? then Err(a.error) else Ok(CalendarEntryWithAttendees(e.date, e.item, a.value))
  }

  /** The enriched entries in input order, or the failure of the first entry
      that fails. */
  function EnrichAll(entries: seq<CalendarEntry>, roster: seq<Person>): Result<seq<CalendarEntryWithAttendees>>
  {
    if entries == [] then Ok([])
    else
      var front := EnrichAll(entries[..|entries| - 1], roster);
      if front.Err? then front
      else
        var last := EnrichEntry(entries[|entries| - 1], roster);
        if last.Err? then Err(last.error) else Ok(front.value + [last.value])
  }

  /** `WithAttendeesAsync(entry, client, cachedPeople)`: the roster is fetched
      only when none is given. */
  function WithAttendeesOne(w: World, remote: seq<Reply>, e: CalendarEntry, cached: Option<seq<Person>>, now: int)
    : Step<Result<CalendarEntryWithAttendees>>
  {
    if cached.Some? then Step(w, EnrichEntry(e, cached.value))
    else
      var p := GetPeople(w.(clock := now), remote);
      if p.result.Err? then Step(p.world, Err(p.result.error))
      else Step(p.world, EnrichEntry(e, p.result.value))
  }

  /** `WithAttendeesAsync(entries, client)`: one roster fetch, then every entry. */
  function WithAttendeesBatch(w: World, remote: seq<Reply>, entries: seq<CalendarEntry>, now: int)
    : Step<Result<seq<CalendarEntryWithAttendees>>>
  {
    var p := GetPeople(w.(clock := now), remote);
    if p.result.Err? then Step(p.world, Err(p.result.error))
    else Step(p.world, EnrichAll(entries, p.result.value))
  }

  /** `FlattenWithAttendeesAsync(month, client)`: one roster fetch, then every
      flattened entry. */
  function FlattenWithAttendees(w: World, remote: seq<Reply>, month: CalendarMonth, parse: DateParser, now: int)
    : Step<Result<seq<CalendarEntryWithAttendees>>>
  {
    var p := GetPeople(w.(clock := now), remote);
    if p.result.Err? then Step(p.world, Err(p.result.error))
    else Step(p.world, EnrichAll(Flatten(month, parse), p.result.value))
  }

  /** `WithAttendeesAsync(entry, client, cachedPeople)`. */
  method WithAttendees(entry: CalendarEntry, client: CoziClient, cachedPeople: Option<seq<Person>>, now: int)
    returns (r: Result<CalendarEntryWithAttendees>)
    modifies client
    ensures client.State() == WithAttendeesOne(old(client.State()), client.remote, entry, cachedPeople, now).world
    ensures r == WithAttendeesOne(old(client.State()), client.remote, entry, cachedPeople, now).result
  {
    var people: seq<Person>;
    if cachedPeople.None? {
      var fetched := client.GetPeople(now);
      if fetched.Err? {
        return Err(fetched.error);
      }
      people := fetched.value;
    } else {
      people := cachedPeople.value;
    }
    var attendees := GetAttendeesFromExtra(entry.item, people);
    if attendees.Err? {
      return Err(attendees.error);
    }
    r := Ok(CalendarEntryWithAttendees(entry.date, entry.item, attendees.value));
  }

  /** The `tasks` list of both list helpers: every entry enriched with the same
      roster, in order. */
  method EnrichEach(entries: seq<CalendarEntry>, client: CoziClient, roster: seq<Person>, now: int)
    returns (r: Result<seq<CalendarEntryWithAttendees>>)
    modifies client
    ensures client.State() == old(client.State())
    ensures r == EnrichAll(entries, roster)
  {
    var results: seq<CalendarEntryWithAttendees> := [];
    var i := 0;
    while i < |entries|
      invariant 0 <= i <= |entries|
      invariant client.State() == old(client.State())
      invariant EnrichAll(entries[..i], roster) == Ok(results)
    {
      assert entries[..i + 1][..i] == entries[..i];
      var one := WithAttendees(entries[i], client, Some(roster), now);
      if one.Err? {
        EnrichStopsAtFailure(entries, roster, i + 1);
        assert entries[..|entries|] == entries;
        return Err(one.error);
      }
      results := results + [one.value];
      i := i + 1;
    }
    assert entries[..|entries|] == entries;
    r := Ok(results);
  }

  /** `WithAttendeesAsync(entries, client)`. */
  method WithAttendeesList(entries: seq<CalendarEntry>, client: CoziClient, now: int)
    returns (r: Result<seq<CalendarEntryWithAttendees>>)
    modifies client
    ensures client.State() == WithAttendeesBatch(old(client.State()), client.remote, entries, now).world
    ensures r == WithAttendeesBatch(old(client.State()), client.remote, entries, now).result
  {
    var allPeople := client.GetPeople(now);
    if allPeople.Err? {
      return Err(allPeople.error);
    }
    r := EnrichEach(entries, client, allPeople.value, now);
  }

  /** `FlattenWithAttendeesAsync(month, client)`. */
  method FlattenMonthWithAttendees(month: CalendarMonth, client: CoziClient, parse: DateParser, now: int)
    returns (r: Result<seq<CalendarEntryWithAttendees>>)
    modifies client
    ensures client.State() == FlattenWithAttendees(old(client.State()), client.remote, month, parse, now).world
    ensures r == FlattenWithAttendees(old(client.State()), client.remote, month, parse, now).result
  {
    var allPeople := client.GetPeople(now);
    if allPeople.Err? {
      return Err(allPeople.error);
    }
    var entries := FlattenMonth(month, parse);
    r := EnrichEach(entries, client, allPeople.value, now);
  }

  /** Once a prefix of the entries fails, the whole list fails the same way. */
  lemma {:induction false} EnrichStopsAtFailure(entries: seq<CalendarEntry>, roster: seq<Person>, k: nat)
    requires k <= |entries| && EnrichAll(entries[..k], roster).Err?
    ensures EnrichAll(entries, roster) == EnrichAll(entries[..k], roster)
    decreases |entries| - k
  {
    if k < |entries| {
      assert entries[..k + 1][..k] == entries[..k];
      EnrichStopsAtFailure(entries, roster, k + 1);
    } else {
      assert entries[..k] == entries;
    }
  }

  /** A successful enrichment has one result per entry, in order, each keeping
      its entry's date and item, with the attendees resolved from the roster. */
  lemma {:induction false} EnrichAllShape(entries: seq<CalendarEntry>, roster: seq<Person>)
    requires EnrichAll(entries, roster).Ok?
    ensures var r := EnrichAll(entries, roster).value;
            |r| == |entries| &&
            forall i :: 0 <= i < |entries| ==>
              AttendeesOf(entries[i].item, roster).Ok? &&
              r[i] == CalendarEntryWithAttendees(entries[i].date, entries[i].item, AttendeesOf(entries[i].item, roster).value)
  {
    if entries != [] {
      var front := entries[..|entries| - 1];
      EnrichAllShape(front, roster);
      assert forall i :: 0 <= i < |front| ==> front[i] == entries[i];
    }
  }

  /** Enrichment fails exactly when resolving some entry's attendees fails. */
  lemma {:induction false} EnrichFailsIffSomeEntryFails(entries: seq<CalendarEntry>, roster: seq<Person>)
    ensures EnrichAll(entries, roster).Err? <==> exists i :: 0 <= i < |entries| && AttendeesOf(entries[i].item, roster).Err?
  {
    if entries != [] {
      var front := entries[..|entries| - 1];
      EnrichFailsIffSomeEntryFails(front, roster);
      assert forall i :: 0 <= i < |front| ==> front[i] == entries[i];
      if AttendeesOf(entries[|entries| - 1].item, roster).Ok? && exists i :: 0 <= i < |entries| && AttendeesOf(entries[i].item, roster).Err? {
        var i :| 0 <= i < |entries| && AttendeesOf(entries[i].item, roster).Err?;
        assert AttendeesOf(front[i].item, roster).Err?;
      }
    }
  }

  /** The list helper fetches the roster exactly once, whatever the entries:
      its requests are those of one `GetPeopleAsync`. */
  lemma RosterFetchedOnce(w: World, remote: seq<Reply>, a: seq<CalendarEntry>, b: seq<CalendarEntry>, now: int)
    ensures WithAttendeesBatch(w, remote, a, now).world == GetPeople(w.(clock := now), remote).world
    ensures WithAttendeesBatch(w, remote, a, now).world == WithAttendeesBatch(w, remote, b, now).world
  {
  }

  /** With a roster at hand the single-entry helper sends nothing. */
  lemma CachedRosterSendsNothing(w: World, remote: seq<Reply>, e: CalendarEntry, roster: seq<Person>, now: int)
    ensures WithAttendeesOne(w, remote, e, Some(roster), now) == Step(w, EnrichEntry(e, roster))
  {
  }

  /** Enriching a month is enriching its flattened entries as a list. */
  lemma MonthIsListOfFlattened(w: World, remote: seq<Reply>, month: CalendarMonth, parse: DateParser, now: int)
    ensures FlattenWithAttendees(w, remote, month, parse, now) == WithAttendeesBatch(w, remote, Flatten(month, parse), now)
  {
  }
}
