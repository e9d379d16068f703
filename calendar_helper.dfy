/** Flattening of a calendar month (Helpers/CalendarHelper.cs): every parsable
    day key, in dictionary order, yields one entry per reference whose item is
    in the month's item map, in reference order, dated by the parsed key. The
    attendee-enriching variants, which call the client, are in the module
    Enrichment. */
module CalendarHelpers {
  import opened Common
  import opened Seqs
  import opened Dates
  import opened Models
  import opened Attendees

  /** `record CalendarEntry(DateTime Date, CalendarItemDto Item)`. */
  datatype CalendarEntry = CalendarEntry(date: Instant, item: CalendarItem)

  /** `record CalendarEntryWithAttendees(Date, Item, Attendees)`. */
  datatype CalendarEntryWithAttendees = CalendarEntryWithAttendees(date: Instant, item: CalendarItem, attendees: seq<Person>)

  /** What one reference of a day dated `date` yields: the entry of the item it
      names, or nothing when `items` has no such item. */
  function RefEntry(items: map<string, CalendarItem>, date: Instant): DayRef -> seq<CalendarEntry>
  {
    (r: DayRef) => if r.id in items then [CalendarEntry(date, items[r.id])] else []
  }

  /** The entries of one day dated `date`: its references resolved against
      `items`, unresolved ones dropped. */
  function Resolve(refs: seq<DayRef>, items: map<string, CalendarItem>, date: Instant): seq<CalendarEntry>
  {
    FlatMap(refs, RefEntry(items, date))
  }

  /** What one day key yields: nothing when the key is not a date, otherwise its
      references resolved and dated by the parsed key. */
  function DayEntries(items: map<string, CalendarItem>, parse: DateParser): Day -> seq<CalendarEntry>
  {
    (d: Day) => if parse(d.key).None? then [] else Resolve(d.refs, items, parse(d.key).value)
  }

  /** The entries of a sequence of day keys, day after day. */
  function FlattenDays(days: seq<Day>, items: map<string, CalendarItem>, parse: DateParser): seq<CalendarEntry>
  {
    FlatMap(days, DayEntries(items, parse))
  }

  /** `Flatten(month)`. */
  function Flatten(month: CalendarMonth, parse: DateParser): seq<CalendarEntry>
  {
    FlattenDays(month.days, month.items, parse)
  }

  /** `Flatten` as the nested `foreach` of the source, proved to produce the
      entries `Flatten` describes. The inner loop is `AppendDay`. */
  method FlattenMonth(month: CalendarMonth, parse: DateParser) returns (entries: seq<CalendarEntry>)
    ensures entries == Flatten(month, parse)
  {
    var days := month.days;
    entries := [];
    var i := 0;
    while i < |days|
      invariant 0 <= i <= |days|
      invariant entries == FlattenDays(days[..i], month.items, parse)
    {
      assert days[..i + 1] == days[..i] + [days[i]];
      FlatMapSnoc(days[..i], days[i], DayEntries(month.items, parse));
      var parsed := parse(days[i].key);
      if parsed.Some? {
        entries := AppendDay(entries, days[i].refs, month.items, parsed.value);
      }
      i := i + 1;
    }
    assert days[..|days|] == days;
  }

  /** The inner loop of `Flatten`: the entries of one parsed day, appended to
      `entries` reference by reference. */
  method AppendDay(entries: seq<CalendarEntry>, refs: seq<DayRef>, items: map<string, CalendarItem>, date: Instant)
    returns (r: seq<CalendarEntry>)
    ensures r == entries + Resolve(refs, items, date)
  {
    r := entries;
    var j := 0;
    while j < |refs|
      invariant 0 <= j <= |refs|
      invariant r == entries + Resolve(refs[..j], items, date)
    {
      assert refs[..j + 1] == refs[..j] + [refs[j]];
      FlatMapSnoc(refs[..j], refs[j], RefEntry(items, date));
      if refs[j].id in items {
        r := r + [CalendarEntry(date, items[refs[j].id])];
      }
      j := j + 1;
    }
    assert refs[..|refs|] == refs;
  }

  /** A reference resolves to exactly one entry: the item it names, dated by
      the day; so one entry per resolved reference, in reference order, and a
      reference listed twice gives two entries. */
  lemma {:induction false} ResolveIsMapOfResolved(refs: seq<DayRef>, items: map<string, CalendarItem>, date: Instant)
    ensures var kept := Filter(refs, (r: DayRef) => r.id in items);
            var res := Resolve(refs, items, date);
            |res| == |kept| &&
            forall k :: 0 <= k < |res| ==> res[k] == CalendarEntry(date, items[kept[k].id])
  {
    if refs != [] {
      var p := (r: DayRef) => r.id in items;
      var front, last := refs[..|refs| - 1], refs[|refs| - 1];
      ResolveIsMapOfResolved(front, items, date);
      assert refs == front + [last];
      FlatMapSnoc(front, last, RefEntry(items, date));
      FilterAppend(front, [last], p);
      assert Filter([last], p) == (if p(last) then [last] else []) by {
        assert [last][1..] == [];
      }
    }
  }

  /** A day key that is not a date contributes nothing and raises nothing,
      wherever it stands. */
  lemma UnparsableDayIgnored(a: seq<Day>, key: string, refs: seq<DayRef>,
                             b: seq<Day>, items: map<string, CalendarItem>, parse: DateParser)
    requires parse(key).None?
    ensures FlattenDays(a + [Day(key, refs)] + b, items, parse) == FlattenDays(a + b, items, parse)
  {
    var f := DayEntries(items, parse);
    FlatMapAppend(a + [Day(key, refs)], b, f);
    FlatMapSnoc(a, Day(key, refs), f);
    FlatMapAppend(a, b, f);
  }

  /** A reference to an item that is not in the map is dropped, wherever it stands. */
  lemma UnresolvedRefIgnored(a: seq<DayRef>, r: DayRef, b: seq<DayRef>, items: map<string, CalendarItem>, date: Instant)
    requires r.id !in items
    ensures Resolve(a + [r] + b, items, date) == Resolve(a + b, items, date)
  {
    var f := RefEntry(items, date);
    FlatMapAppend(a + [r], b, f);
    FlatMapSnoc(a, r, f);
    FlatMapAppend(a, b, f);
  }

  /** Every entry of a day is dated by the parsed key and carries the item that
      one of the day's references names. */
  lemma {:induction false} ResolveSound(refs: seq<DayRef>, items: map<string, CalendarItem>, date: Instant, k: nat)
    requires k < |Resolve(refs, items, date)|
    ensures Resolve(refs, items, date)[k].date == date
    ensures exists j :: 0 <= j < |refs| && refs[j].id in items && Resolve(refs, items, date)[k].item == items[refs[j].id]
  {
    var front := refs[..|refs| - 1];
    assert refs == front + [refs[|refs| - 1]];
    FlatMapSnoc(front, refs[|refs| - 1], RefEntry(items, date));
    if k < |Resolve(front, items, date)| {
      ResolveSound(front, items, date, k);
      var j :| 0 <= j < |front| && front[j].id in items && Resolve(front, items, date)[k].item == items[front[j].id];
      assert refs[j] == front[j];
    } else {
      assert refs[|refs| - 1].id in items;
    }
  }

  /** Flattening never invents an item: each entry's item is `Items[r.Id]` for
      a reference `r` of some parsable day, and its date is that day's parsed
      key, not the item's own day string. */
  lemma {:induction false} FlattenSound(days: seq<Day>, items: map<string, CalendarItem>,
                                        parse: DateParser, k: nat)
    requires k < |FlattenDays(days, items, parse)|
    ensures exists i, j :: 0 <= i < |days| && 0 <= j < |days[i].refs| &&
              parse(days[i].key) == Some(FlattenDays(days, items, parse)[k].date) &&
              days[i].refs[j].id in items &&
              FlattenDays(days, items, parse)[k].item == items[days[i].refs[j].id]
  {
    var front := days[..|days| - 1];
    assert days == front + [days[|days| - 1]];
    FlatMapSnoc(front, days[|days| - 1], DayEntries(items, parse));
    var e := FlattenDays(days, items, parse)[k];
    if k < |FlattenDays(front, items, parse)| {
      FlattenSound(front, items, parse, k);
      var i, j :| 0 <= i < |front| && 0 <= j < |front[i].refs| &&
                  parse(front[i].key) == Some(FlattenDays(front, items, parse)[k].date) &&
                  front[i].refs[j].id in items &&
                  FlattenDays(front, items, parse)[k].item == items[front[i].refs[j].id];
      assert days[i] == front[i];
    } else {
      var i := |days| - 1;
      var k' := k - |FlattenDays(front, items, parse)|;
      var date := parse(days[i].key).value;
      ResolveSound(days[i].refs, items, date, k');
      var j :| 0 <= j < |days[i].refs| && days[i].refs[j].id in items && Resolve(days[i].refs, items, date)[k'].item == items[days[i].refs[j].id];
      assert e == Resolve(days[i].refs, items, date)[k'];
    }
  }
}
