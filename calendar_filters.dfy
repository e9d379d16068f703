/** The `Where*` filters over calendar entries (Helpers/CalendarFilterExtensions.cs).
    Each keeps, in order, the entries whose item (or date) passes one test;
    substring tests default to OrdinalIgnoreCase and treat a missing string as
    not containing anything. */
module Filters {
  import opened Common
  import opened Seqs
  import opened Text
  import opened Dates
  import opened Models
  import opened CalendarHelpers

  /** LINQ's `Where` on entries: an order-preserving subsequence holding
      exactly the entries that pass `p`. */
  function Keep(src: seq<CalendarEntry>, p: CalendarEntry -> bool): (r: seq<CalendarEntry>)
    ensures IsSubseq(r, src)
    ensures forall i :: 0 <= i < |r| ==> p(r[i])
    ensures forall i :: 0 <= i < |src| ==> (src[i] in r <==> p(src[i]))
    ensures forall e :: multiset(r)[e] == if p(e) then multiset(src)[e] else 0
  {
    FilterIsSubseq(src, p);
    forall e ensures multiset(Filter(src, p))[e] == if p(e) then multiset(src)[e] else 0 {
      FilterMultiplicity(src, p, e);
    }
    Filter(src, p)
  }

  /** `s?.IndexOf(sub, cmp) >= 0`: a missing string contains nothing. */
  predicate HasSubstring(s: Option<string>, sub: string, cmp: Comparison)
  {
    s.Some? && IndexOf(s.value, sub, cmp) >= 0
  }

  /** `Where(predicate)`: the entries whose item passes `test`. */
  function Where(src: seq<CalendarEntry>, test: CalendarItem -> bool): (r: seq<CalendarEntry>)
    ensures IsSubseq(r, src)
    ensures forall i :: 0 <= i < |src| ==> (src[i] in r <==> test(src[i].item))
    ensures forall e :: multiset(r)[e] == if test(e.item) then multiset(src)[e] else 0
  {
    Keep(src, (e: CalendarEntry) => test(e.item))
  }

  /** `WhereIdEquals`: ordinal comparison, so exactly the entries with that id. */
  function WhereIdEquals(src: seq<CalendarEntry>, id: string): (r: seq<CalendarEntry>)
    ensures IsSubseq(r, src)
    ensures forall i :: 0 <= i < |src| ==> (src[i] in r <==> src[i].item.id == id)
    ensures forall e :: multiset(r)[e] == if e.item.id == id then multiset(src)[e] else 0
  {
    forall e: CalendarEntry ensures EqualsCmp(e.item.id, id, Ordinal) <==> e.item.id == id {
      OrdinalEqualsIsEquality(e.item.id, id);
    }
    Keep(src, (e: CalendarEntry) => EqualsCmp(e.item.id, id, Ordinal))
  }

  function WhereItemTypeEquals(src: seq<CalendarEntry>, itemType: string, cmp: Comparison := OrdinalIgnoreCase): (r: seq<CalendarEntry>)
    ensures IsSubseq(r, src)
    ensures forall i :: 0 <= i < |src| ==> (src[i] in r <==> EqualsCmp(src[i].item.itemType, itemType, cmp))
    ensures forall e :: multiset(r)[e] == if EqualsCmp(e.item.itemType, itemType, cmp) then multiset(src)[e] else 0
  {
    Keep(src, (e: CalendarEntry) => EqualsCmp(e.item.itemType, itemType, cmp))
  }

  function WhereItemTypeContains(src: seq<CalendarEntry>, substring: string, cmp: Comparison := OrdinalIgnoreCase): (r: seq<CalendarEntry>)
    ensures IsSubseq(r, src)
    ensures forall i :: 0 <= i < |src| ==> (src[i] in r <==> Contains(src[i].item.itemType, substring, cmp))
    ensures forall e :: multiset(r)[e] == if Contains(e.item.itemType, substring, cmp) then multiset(src)[e] else 0
  {
    Keep(src, (e: CalendarEntry) => IndexOf(e.item.itemType, substring, cmp) >= 0)
  }

  /** `WhereDescriptionContains`: the description or the short description
      contains the substring. */
  function WhereDescriptionContains(src: seq<CalendarEntry>, substring: string, cmp: Comparison := OrdinalIgnoreCase): (r: seq<CalendarEntry>)
    ensures IsSubseq(r, src)
    ensures forall i :: 0 <= i < |src| ==>
              (src[i] in r <==>
                 Contains(src[i].item.description, substring, cmp) ||
                 (src[i].item.descriptionShort.Some? && Contains(src[i].item.descriptionShort.value, substring, cmp)))
    ensures forall e :: multiset(r)[e] ==
              if Contains(e.item.description, substring, cmp) ||
                 (e.item.descriptionShort.Some? && Contains(e.item.descriptionShort.value, substring, cmp))
              then multiset(src)[e] else 0
  {
    Keep(src, (e: CalendarEntry) => IndexOf(e.item.description, substring, cmp) >= 0 ||
                                    HasSubstring(e.item.descriptionShort, substring, cmp))
  }

  function WhereItemSourceContains(src: seq<CalendarEntry>, substring: string, cmp: Comparison := OrdinalIgnoreCase): (r: seq<CalendarEntry>)
    ensures IsSubseq(r, src)
    ensures forall i :: 0 <= i < |src| ==>
              (src[i] in r <==> src[i].item.itemSource.Some? && Contains(src[i].item.itemSource.value, substring, cmp))
    ensures forall e :: multiset(r)[e] == if e.item.itemSource.Some? && Contains(e.item.itemSource.value, substring, cmp) then multiset(src)[e] else 0
  {
    Keep(src, (e: CalendarEntry) => HasSubstring(e.item.itemSource, substring, cmp))
  }

  /** `WhereItemSourceDoesNotContain`: a missing source passes. */
  function WhereItemSourceDoesNotContain(src: seq<CalendarEntry>, substring: string, cmp: Comparison := OrdinalIgnoreCase): (r: seq<CalendarEntry>)
    ensures IsSubseq(r, src)
    ensures forall i :: 0 <= i < |src| ==>
              (src[i] in r <==> src[i].item.itemSource.None? || !Contains(src[i].item.itemSource.value, substring, cmp))
    ensures forall e :: multiset(r)[e] == if e.item.itemSource.None? || !Contains(e.item.itemSource.value, substring, cmp) then multiset(src)[e] else 0
  {
    Keep(src, (e: CalendarEntry) => e.item.itemSource.None? || IndexOf(e.item.itemSource.value, substring, cmp) < 0)
  }

  /** `WhereDateEquals`: same calendar date, the time of day ignored. */
  function WhereDateEquals(src: seq<CalendarEntry>, date: Instant): (r: seq<CalendarEntry>)
    ensures IsSubseq(r, src)
    ensures forall i :: 0 <= i < |src| ==> (src[i] in r <==> DayNumber(src[i].date) == DayNumber(date))
    ensures forall e :: multiset(r)[e] == if DayNumber(e.date) == DayNumber(date) then multiset(src)[e] else 0
  {
    Keep(src, (e: CalendarEntry) => DateOnly(e.date) == DateOnly(date))
  }

  function WhereDateOnOrAfter(src: seq<CalendarEntry>, from: Instant): (r: seq<CalendarEntry>)
    ensures IsSubseq(r, src)
    ensures forall i :: 0 <= i < |src| ==> (src[i] in r <==> DayNumber(src[i].date) >= DayNumber(from))
    ensures forall e :: multiset(r)[e] == if DayNumber(e.date) >= DayNumber(from) then multiset(src)[e] else 0
  {
    Keep(src, (e: CalendarEntry) => DateOnly(e.date) >= DateOnly(from))
  }

  function WhereDateBefore(src: seq<CalendarEntry>, toExclusive: Instant): (r: seq<CalendarEntry>)
    ensures IsSubseq(r, src)
    ensures forall i :: 0 <= i < |src| ==> (src[i] in r <==> DayNumber(src[i].date) < DayNumber(toExclusive))
    ensures forall e :: multiset(r)[e] == if DayNumber(e.date) < DayNumber(toExclusive) then multiset(src)[e] else 0
  {
    Keep(src, (e: CalendarEntry) => DateOnly(e.date) < DateOnly(toExclusive))
  }

  function WhereDateBetween(src: seq<CalendarEntry>, fromInclusive: Instant, toExclusive: Instant): (r: seq<CalendarEntry>)
    ensures IsSubseq(r, src)
    ensures forall i :: 0 <= i < |src| ==>
              (src[i] in r <==> DayNumber(fromInclusive) <= DayNumber(src[i].date) < DayNumber(toExclusive))
    ensures forall e :: multiset(r)[e] == if DayNumber(fromInclusive) <= DayNumber(e.date) < DayNumber(toExclusive) then multiset(src)[e] else 0
  {
    Keep(src, (e: CalendarEntry) => DateOnly(e.date) >= DateOnly(fromInclusive) && DateOnly(e.date) < DateOnly(toExclusive))
  }

  /** `WhereLocationContains`: items without details or without a location fail. */
  function WhereLocationContains(src: seq<CalendarEntry>, substring: string, cmp: Comparison := OrdinalIgnoreCase): (r: seq<CalendarEntry>)
    ensures IsSubseq(r, src)
    ensures forall i :: 0 <= i < |src| ==>
              (src[i] in r <==> src[i].item.details.Some? && src[i].item.details.value.location.Some? &&
                                Contains(src[i].item.details.value.location.value, substring, cmp))
    ensures forall e :: multiset(r)[e] == if e.item.details.Some? && e.item.details.value.location.Some? && Contains(e.item.details.value.location.value, substring, cmp) then multiset(src)[e] else 0
  {
    Keep(src, (e: CalendarEntry) => e.item.details.Some? && HasSubstring(e.item.details.value.location, substring, cmp))
  }

  /** `WhereNotesContains`: items without details or without notes fail. */
  function WhereNotesContains(src: seq<CalendarEntry>, substring: string, cmp: Comparison := OrdinalIgnoreCase): (r: seq<CalendarEntry>)
    ensures IsSubseq(r, src)
    ensures forall i :: 0 <= i < |src| ==>
              (src[i] in r <==> src[i].item.details.Some? && src[i].item.details.value.notes.Some? &&
                                Contains(src[i].item.details.value.notes.value, substring, cmp))
    ensures forall e :: multiset(r)[e] == if e.item.details.Some? && e.item.details.value.notes.Some? && Contains(e.item.details.value.notes.value, substring, cmp) then multiset(src)[e] else 0
  {
    Keep(src, (e: CalendarEntry) => e.item.details.Some? && HasSubstring(e.item.details.value.notes, substring, cmp))
  }

  function WhereIsHoliday(src: seq<CalendarEntry>): (r: seq<CalendarEntry>)
    ensures IsSubseq(r, src)
    ensures forall i :: 0 <= i < |src| ==>
              (src[i] in r <==> src[i].item.itemSource.Some? && Contains(src[i].item.itemSource.value, "Holiday", OrdinalIgnoreCase))
    ensures forall e :: multiset(r)[e] == if e.item.itemSource.Some? && Contains(e.item.itemSource.value, "Holiday", OrdinalIgnoreCase) then multiset(src)[e] else 0
  {
    Keep(src, (e: CalendarEntry) => IsHoliday(e.item))
  }

  function WhereIsNotHoliday(src: seq<CalendarEntry>): (r: seq<CalendarEntry>)
    ensures IsSubseq(r, src)
    ensures forall i :: 0 <= i < |src| ==>
              (src[i] in r <==> src[i].item.itemSource.None? || !Contains(src[i].item.itemSource.value, "Holiday", OrdinalIgnoreCase))
    ensures forall e :: multiset(r)[e] == if e.item.itemSource.None? || !Contains(e.item.itemSource.value, "Holiday", OrdinalIgnoreCase) then multiset(src)[e] else 0
  {
    Keep(src, (e: CalendarEntry) => !IsHoliday(e.item))
  }

  /** The read-only flag of an item, a missing details block or flag counting as false. */
  function ReadOnlyFlag(item: CalendarItem): bool
  {
    if item.details.Some? && item.details.value.readOnly.Some? then item.details.value.readOnly.value else false
  }

  /** `WhereReadOnly`, whose flag defaults to true. */
  function WhereReadOnly(src: seq<CalendarEntry>, readOnly: bool := true): (r: seq<CalendarEntry>)
    ensures IsSubseq(r, src)
    ensures forall i :: 0 <= i < |src| ==>
              (src[i] in r <==> (src[i].item.details.Some? && src[i].item.details.value.readOnly == Some(true)) == readOnly)
    ensures forall e :: multiset(r)[e] == if (e.item.details.Some? && e.item.details.value.readOnly == Some(true)) == readOnly then multiset(src)[e] else 0
  {
    Keep(src, (e: CalendarEntry) => ReadOnlyFlag(e.item) == readOnly)
  }

  function WhereDateSpanEquals(src: seq<CalendarEntry>, span: int): (r: seq<CalendarEntry>)
    ensures IsSubseq(r, src)
    ensures forall i :: 0 <= i < |src| ==> (src[i] in r <==> src[i].item.dateSpan == span)
    ensures forall e :: multiset(r)[e] == if e.item.dateSpan == span then multiset(src)[e] else 0
  {
    Keep(src, (e: CalendarEntry) => e.item.dateSpan == span)
  }

  /** `WhereItemSourceNotContains`, which forwards to `WhereItemSourceDoesNotContain`. */
  function WhereItemSourceNotContains(src: seq<CalendarEntry>, substring: string, cmp: Comparison := OrdinalIgnoreCase): seq<CalendarEntry>
  {
    WhereItemSourceDoesNotContain(src, substring, cmp)
  }

  // -----------------------------------------------------------------------
  // Laws relating the filters.
  // -----------------------------------------------------------------------

  /** Contains and DoesNotContain split the entries: together they hold every
      entry exactly as often as the input, and an entry without a source
      always goes to DoesNotContain. */
  lemma ItemSourcePartition(src: seq<CalendarEntry>, substring: string, cmp: Comparison)
    ensures multiset(WhereItemSourceContains(src, substring, cmp)) + multiset(WhereItemSourceDoesNotContain(src, substring, cmp)) == multiset(src)
    ensures |WhereItemSourceContains(src, substring, cmp)| + |WhereItemSourceDoesNotContain(src, substring, cmp)| == |src|
    ensures forall i :: 0 <= i < |src| && src[i].item.itemSource.None? ==>
              src[i] in WhereItemSourceDoesNotContain(src, substring, cmp) && src[i] !in WhereItemSourceContains(src, substring, cmp)
  {
    FilterPartition(src, (e: CalendarEntry) => HasSubstring(e.item.itemSource, substring, cmp),
                         (e: CalendarEntry) => e.item.itemSource.None? || IndexOf(e.item.itemSource.value, substring, cmp) < 0);
  }

  /** Holidays and non-holidays split the entries. */
  lemma HolidayPartition(src: seq<CalendarEntry>)
    ensures multiset(WhereIsHoliday(src)) + multiset(WhereIsNotHoliday(src)) == multiset(src)
    ensures |WhereIsHoliday(src)| + |WhereIsNotHoliday(src)| == |src|
  {
    FilterPartition(src, (e: CalendarEntry) => IsHoliday(e.item), (e: CalendarEntry) => !IsHoliday(e.item));
  }

  /** A date range is the on-or-after filter followed by the before filter. */
  lemma DateBetweenIsComposition(src: seq<CalendarEntry>, fromInclusive: Instant, toExclusive: Instant)
    ensures WhereDateBetween(src, fromInclusive, toExclusive) == WhereDateBefore(WhereDateOnOrAfter(src, fromInclusive), toExclusive)
  {
    FilterFilter(src, (e: CalendarEntry) => DateOnly(e.date) >= DateOnly(fromInclusive),
                      (e: CalendarEntry) => DateOnly(e.date) < DateOnly(toExclusive),
                      (e: CalendarEntry) => DateOnly(e.date) >= DateOnly(fromInclusive) && DateOnly(e.date) < DateOnly(toExclusive));
  }

  /** The composite helper is the same filter as DoesNotContain. */
  lemma NotContainsIsDoesNotContain(src: seq<CalendarEntry>, substring: string, cmp: Comparison)
    ensures WhereItemSourceNotContains(src, substring, cmp) == WhereItemSourceDoesNotContain(src, substring, cmp)
  {
  }

  /** Asking for entries that are not read-only keeps every entry whose item
      has no details block. */
  lemma NotReadOnlyKeepsMissingDetails(src: seq<CalendarEntry>, i: nat)
    requires i < |src| && src[i].item.details.None?
    ensures src[i] in WhereReadOnly(src, false)
    ensures src[i] !in WhereReadOnly(src)
  {
  }

  /** Under the default comparison the letter case of the substring does not
      matter: an entry from "US Holidays" passes a search for "holiday". */
  lemma DefaultComparisonIgnoresCase(e: CalendarEntry)
    requires e.item.itemSource == Some("US Holidays")
    ensures e in WhereItemSourceContains([e], "holiday")
  {
    IgnoreCaseFindsHoliday();
    assert [e][0] == e;
  }
}
