/** The data the client reads from the remote API (Models/): the calendar item
    with its field defaults and derived values, its details block, the month
    payload, people and lists, and the untyped JSON values of an item's
    extension bag. Only the fields the client or its helpers look at are kept. */
module Models {
  import opened Common
  import opened Text
  import opened Dates

  /** A `JsonElement` of the extension bag, by value kind: strings, objects,
      arrays and null; numbers and booleans are all `JOther`. */
  datatype JsonValue =
    | JString(text: string)
    | JObject(props: map<string, JsonValue>)
    | JArray(elems: seq<JsonValue>)
    | JNull
    | JOther

  /** `ItemDetailsDto`: every field may be absent. */
  datatype ItemDetails = ItemDetails(location: Option<string>, notes: Option<string>, readOnly: Option<bool>)

  /** `CalendarItemDto`. Fields declared nullable in C# are `Option`s. */
  datatype CalendarItem = CalendarItem(
    id: string,
    itemType: string,
    itemVersion: int,
    attendeeSet: Option<seq<string>>,
    description: string,
    descriptionShort: Option<string>,
    itemSource: Option<string>,
    dayRaw: string,
    startTime: string,
    endTime: string,
    dateSpan: int,
    details: Option<ItemDetails>,
    extra: Option<map<string, JsonValue>>)

  /** `DateTime.Parse` / `DateTime.TryParse` of a day string: the instant it
      denotes, or None when it is not a date. */
  type DateParser = string -> Option<Instant>

  /** `TimeSpan.Parse`: the duration a time string denotes, in seconds. */
  type SpanParser = string -> Option<int>

  /** A freshly constructed item: the property initialisers of the DTO. */
  function NewCalendarItem(): (r: CalendarItem)
    ensures r.id == "" && r.itemType == "" && r.description == "" && r.dayRaw == ""
    ensures r.startTime == "00:00:00" && r.endTime == "00:00:00" && r.dateSpan == 1
    ensures r.itemVersion == 0
    ensures r.attendeeSet.None? && r.descriptionShort.None? && r.itemSource.None?
    ensures r.details.None? && r.extra.None?
    ensures !IsHoliday(r)
  {
    CalendarItem("", "", 0, None, "", None, None, "", "00:00:00", "00:00:00", 1, None, None)
  }

  /** `IsHoliday`: the item source mentions "Holiday", in any letter case. */
  predicate IsHoliday(item: CalendarItem)
    ensures item.itemSource.None? ==> !IsHoliday(item)
    ensures IsHoliday(item) <==> item.itemSource.Some? && Contains(item.itemSource.value, "Holiday", OrdinalIgnoreCase)
  {
    item.itemSource.Some? && IndexOf(item.itemSource.value, "Holiday", OrdinalIgnoreCase) >= 0
  }

  /** `Date`: the parsed `DayRaw`; a string that is not a date throws. */
  function Date(item: CalendarItem, parse: DateParser): Result<Instant>
  {
    match parse(item.dayRaw)
    case Some(t) => Ok(t)
    case None => Err(BadFormat)
  }

  /** `Start`: the parsed `StartTime`. */
  function Start(item: CalendarItem, span: SpanParser): Result<int>
  {
    match span(item.startTime)
    case Some(s) => Ok(s)
    case None => Err(BadFormat)
  }

  /** `End`: the parsed `EndTime`. */
  function End(item: CalendarItem, span: SpanParser): Result<int>
  {
    match span(item.endTime)
    case Some(s) => Ok(s)
    case None => Err(BadFormat)
  }

  /** `Date + offset`, where both operands may have failed to parse; the date
      is evaluated first. */
  function Shift(date: Result<Instant>, offset: Result<int>): Result<Instant>
  {
    if date.Err? then Err(date.error)
    else if offset.Err? then Err(offset.error)
    else Ok(date.value + offset.value)
  }

  /** `StartDateTime`, defined as `Date + Start`. */
  function StartDateTime(item: CalendarItem, parse: DateParser, span: SpanParser): Result<Instant>
  {
    Shift(Date(item, parse), Start(item, span))
  }

  /** `EndDateTime`, defined as `Date + End`. */
  function EndDateTime(item: CalendarItem, parse: DateParser, span: SpanParser): Result<Instant>
  {
    Shift(Date(item, parse), End(item, span))
  }

  /** The start and end instants succeed exactly when both of their parts
      parse, and are then the date moved by the parsed time of day. */
  lemma DateTimesAreDatePlusTime(item: CalendarItem, parse: DateParser, span: SpanParser)
    ensures StartDateTime(item, parse, span).Ok? <==> parse(item.dayRaw).Some? && span(item.startTime).Some?
    ensures StartDateTime(item, parse, span).Ok? ==>
              StartDateTime(item, parse, span).value == parse(item.dayRaw).value + span(item.startTime).value
    ensures EndDateTime(item, parse, span).Ok? <==> parse(item.dayRaw).Some? && span(item.endTime).Some?
    ensures EndDateTime(item, parse, span).Ok? ==>
              EndDateTime(item, parse, span).value == parse(item.dayRaw).value + span(item.endTime).value
  {
  }

  /** A start time within the day keeps the start instant on the item's own
      calendar date when that date is a midnight. */
  lemma StartStaysOnDate(item: CalendarItem, parse: DateParser, span: SpanParser)
    requires Date(item, parse).Ok? && DateOnly(Date(item, parse).value) == Date(item, parse).value
    requires Start(item, span).Ok? && 0 <= Start(item, span).value < SecondsPerDay
    ensures StartDateTime(item, parse, span).Ok?
    ensures DateOnly(StartDateTime(item, parse, span).value) == Date(item, parse).value
  {
    var d, s := Date(item, parse).value, Start(item, span).value;
    assert d == DayNumber(d) * SecondsPerDay;
    assert (d + s) / SecondsPerDay == DayNumber(d);
  }

  /** Items with the same day string have the same date, whatever else differs. */
  lemma DateDependsOnlyOnDay(a: CalendarItem, b: CalendarItem, parse: DateParser)
    requires a.dayRaw == b.dayRaw
    ensures Date(a, parse) == Date(b, parse)
  {
  }

  /** `PersonDto`, with its single id field. */
  datatype Person = Person(id: string, name: string)

  /** `DayRef`: a reference from a day to an item id. */
  datatype DayRef = DayRef(id: string)

  /** One entry of the `Days` dictionary: a day key and its references. */
  datatype Day = Day(key: string, refs: seq<DayRef>)

  /** `CalendarMonthDto`: the day keys with their references, in dictionary
      order, and the items by id. */
  datatype CalendarMonth = CalendarMonth(
    startDate: Instant,
    endDate: Instant,
    days: seq<Day>,
    items: map<string, CalendarItem>)

  /** `ListDto`, without its line items. */
  datatype ListRecord = ListRecord(listId: string, title: string, listType: string, version: int)
}
