/** Attendee resolution from an item's extension bag (Helpers/AttendeeHelpers.cs):
    the "householdMembers" array of the bag is read for person ids (bare
    strings, or objects with an "id" property) and the roster is filtered,
    in roster order, to the people whose id was collected. */
module Attendees {
  import opened Common
  import opened Seqs
  import opened Models

  /** The key of the extension bag that lists an item's household members. */
  const HouseholdMembers := "householdMembers"

  /** What one array element adds to the collected ids: nothing, or one id,
      where None stands for the null that `GetString` returns for a JSON null. */
  datatype Contribution = Skip | Add(id: Option<string>)

  /** The contribution of one element: a string adds itself, an object with an
      "id" property adds that property's string; `GetString` on an "id" that is
      neither a string nor null throws. Every other element adds nothing. */
  function MemberIdOf(el: JsonValue): (r: Result<Contribution>)
    ensures r.Err? <==> el.JObject? && "id" in el.props && !el.props["id"].JString? && !el.props["id"].JNull?
    ensures el.JString? ==> r == Ok(Add(Some(el.text)))
    ensures el.JObject? && "id" in el.props && el.props["id"].JString? ==> r == Ok(Add(Some(el.props["id"].text)))
    ensures el.JObject? && "id" in el.props && el.props["id"].JNull? ==> r == Ok(Add(None))
    ensures el.JObject? && "id" !in el.props ==> r == Ok(Skip)
    ensures r.Ok? && r.value.Add? ==> el.JString? || (el.JObject? && "id" in el.props)
  {
    match el
    case JString(s) => Ok(Add(Some(s)))
    case JObject(props) =>
      if "id" !in props then Ok(Skip)
      else (match props["id"]
            case JString(s) => Ok(Add(Some(s)))
            case JNull => Ok(Add(None))
            case _ => Err(NotAString))
    case _ => Ok(Skip)
  }

  /** The ids collected from the elements, in order, or the failure of the
      first element that throws. */
  function CollectIds(elems: seq<JsonValue>): (r: Result<seq<Option<string>>>)
    ensures r.Ok? ==> |r.value| <= |elems|
  {
    if elems == [] then Ok([])
    else
      var front := CollectIds(elems[..|elems| - 1]);
      if front.Err? then front
      else
        match MemberIdOf(elems[|elems| - 1])
        case Err(e) => Err(e)
        case Ok(Skip) => Ok(front.value)
        case Ok(Add(id)) => Ok(front.value + [id])
  }

  /** The elements of the item's "householdMembers" array; None without an
      extension bag, without the key, or when the value is not an array. */
  function MembersArray(item: CalendarItem): Option<seq<JsonValue>>
  {
    if item.extra.None? || HouseholdMembers !in item.extra.value then None
    else match item.extra.value[HouseholdMembers]
      case JArray(elems) => Some(elems)
      case _ => None
  }

  /** The roster filter: the people whose id is among `ids`, in roster order. */
  function InRoster(roster: seq<Person>, ids: seq<Option<string>>): seq<Person>
  {
    Filter(roster, (p: Person) => Some(p.id) in ids)
  }

  /** `GetAttendeesFromExtra` as a value. */
  function AttendeesOf(item: CalendarItem, roster: seq<Person>): Result<seq<Person>>
  {
    match MembersArray(item)
    case None => Ok([])
    case Some(elems) =>
      match CollectIds(elems)
      case Err(e) => Err(e)
      case Ok(ids) => Ok(InRoster(roster, ids))
  }

  /** `GetAttendeesFromExtra`: the loop collects the ids, then the roster is
      filtered by them. */
  method GetAttendeesFromExtra(item: CalendarItem, roster: seq<Person>) returns (r: Result<seq<Person>>)
    ensures r == AttendeesOf(item, roster)
  {
    if item.extra.None? || HouseholdMembers !in item.extra.value {
      return Ok([]);
    }
    var el := item.extra.value[HouseholdMembers];
    if !el.JArray? {
      return Ok([]);
    }
    var elems := el.elems;
    var memberIds: seq<Option<string>> := [];
    var i := 0;
    while i < |elems|
      invariant 0 <= i <= |elems|
      invariant CollectIds(elems[..i]) == Ok(memberIds)
    {
      assert elems[..i + 1][..i] == elems[..i];
      var c := MemberIdOf(elems[i]);
      if c.Err? {
        assert CollectIds(elems[..i + 1]).Err?;
        CollectStopsAtFailure(elems, i + 1);
        assert elems[..|elems|] == elems;
        return Err(c.error);
      }
      if c.value.Add? {
        memberIds := memberIds + [c.value.id];
      }
      i := i + 1;
    }
    assert elems[..|elems|] == elems;
    r := Ok(InRoster(roster, memberIds));
  }

  /** Once a prefix of the elements fails, the whole array fails the same way. */
  lemma {:induction false} CollectStopsAtFailure(elems: seq<JsonValue>, k: nat)
    requires k <= |elems| && CollectIds(elems[..k]).Err?
    ensures CollectIds(elems) == CollectIds(elems[..k])
    decreases |elems| - k
  {
    if k < |elems| {
      assert elems[..k + 1][..k] == elems[..k];
      CollectStopsAtFailure(elems, k + 1);
    } else {
      assert elems[..k] == elems;
    }
  }

  /** Collecting fails exactly when some element throws. */
  lemma {:induction false} CollectFailsIffSomeElementFails(elems: seq<JsonValue>)
    ensures CollectIds(elems).Err? <==> exists i :: 0 <= i < |elems| && MemberIdOf(elems[i]).Err?
  {
    if elems != [] {
      var front := elems[..|elems| - 1];
      CollectFailsIffSomeElementFails(front);
      assert forall i :: 0 <= i < |front| ==> front[i] == elems[i];
      if !MemberIdOf(elems[|elems| - 1]).Err? && exists i :: 0 <= i < |elems| && MemberIdOf(elems[i]).Err? {
        var i :| 0 <= i < |elems| && MemberIdOf(elems[i]).Err?;
        assert MemberIdOf(front[i]).Err?;
      }
    }
  }

  /** The collected ids are exactly the ids the elements contribute. */
  lemma {:induction false} CollectedIdsAreContributed(elems: seq<JsonValue>, x: Option<string>)
    requires CollectIds(elems).Ok?
    ensures x in CollectIds(elems).value <==> exists i :: 0 <= i < |elems| && MemberIdOf(elems[i]) == Ok(Add(x))
  {
    if elems != [] {
      var front := elems[..|elems| - 1];
      CollectedIdsAreContributed(front, x);
      if exists i :: 0 <= i < |elems| && MemberIdOf(elems[i]) == Ok(Add(x)) {
        var i :| 0 <= i < |elems| && MemberIdOf(elems[i]) == Ok(Add(x));
        if i < |elems| - 1 {
          assert front[i] == elems[i];
        }
      }
      if x in CollectIds(front).value {
        var i :| 0 <= i < |front| && MemberIdOf(front[i]) == Ok(Add(x));
        assert elems[i] == front[i];
      }
    }
  }

  /** No extension bag, no "householdMembers" key, or a value that is not an
      array: nobody attends, and nothing throws. */
  lemma NoMembersArrayNoAttendees(item: CalendarItem, roster: seq<Person>)
    requires item.extra.None? || HouseholdMembers !in item.extra.value || !item.extra.value[HouseholdMembers].JArray?
    ensures AttendeesOf(item, roster) == Ok([])
  {
  }

  /** The attendees are an order-preserving subsequence of the roster; a person
      is among them exactly when it is in the roster and its id was collected. */
  lemma AttendeesAreRosterSubsequence(item: CalendarItem, roster: seq<Person>)
    requires AttendeesOf(item, roster).Ok?
    ensures IsSubseq(AttendeesOf(item, roster).value, roster)
    ensures MembersArray(item).Some? ==>
              forall i :: 0 <= i < |roster| ==>
                (roster[i] in AttendeesOf(item, roster).value <==> Some(roster[i].id) in CollectIds(MembersArray(item).value).value)
    ensures MembersArray(item).Some? ==>
              forall p :: multiset(AttendeesOf(item, roster).value)[p] ==
                if Some(p.id) in CollectIds(MembersArray(item).value).value then multiset(roster)[p] else 0
  {
    if MembersArray(item).Some? {
      var ids := CollectIds(MembersArray(item).value).value;
      var keep := (p: Person) => Some(p.id) in ids;
      FilterIsSubseq(roster, keep);
      forall p ensures multiset(Filter(roster, keep))[p] == if keep(p) then multiset(roster)[p] else 0 {
        FilterMultiplicity(roster, keep, p);
      }
    }
  }

  /** Only which ids were collected matters: repeating an id, or listing ids in
      another order, selects the same people. */
  lemma OnlyTheIdSetMatters(roster: seq<Person>, ids1: seq<Option<string>>, ids2: seq<Option<string>>)
    requires forall x :: x in ids1 <==> x in ids2
    ensures InRoster(roster, ids1) == InRoster(roster, ids2)
  {
    FilterExt(roster, (p: Person) => Some(p.id) in ids1, (p: Person) => Some(p.id) in ids2);
  }

  /** Nobody is listed more often than in the roster, and there are never more
      attendees than people. */
  lemma AttendeesAtMostRoster(roster: seq<Person>, ids: seq<Option<string>>, p: Person)
    ensures |InRoster(roster, ids)| <= |roster|
    ensures multiset(InRoster(roster, ids))[p] <= multiset(roster)[p]
  {
    FilterCount(roster, (q: Person) => Some(q.id) in ids, p);
  }

  /** Ids that match nobody on the roster select nobody. */
  lemma UnknownIdsIgnored(roster: seq<Person>, ids: seq<Option<string>>)
    requires forall i :: 0 <= i < |roster| ==> Some(roster[i].id) !in ids
    ensures InRoster(roster, ids) == []
  {
    FilterNone(roster, (p: Person) => Some(p.id) in ids);
  }

  /** An id that matches nobody on the roster, added to any other ids,
      changes nobody's attendance. */
  lemma UnknownIdAmongKnownIgnored(roster: seq<Person>, ids: seq<Option<string>>, u: Option<string>)
    requires forall i :: 0 <= i < |roster| ==> Some(roster[i].id) != u
    ensures InRoster(roster, ids + [u]) == InRoster(roster, ids)
  {
    forall p | p in roster ensures (Some(p.id) in ids + [u]) == (Some(p.id) in ids) {
      var i :| 0 <= i < |roster| && roster[i] == p;
    }
    FilterExt(roster, (p: Person) => Some(p.id) in ids + [u], (p: Person) => Some(p.id) in ids);
  }

  /** The item's `AttendeeSet` plays no part. */
  lemma AttendeeSetIgnored(item: CalendarItem, roster: seq<Person>, set': Option<seq<string>>)
    ensures AttendeesOf(item.(attendeeSet := set'), roster) == AttendeesOf(item, roster)
  {
  }

  /** A freshly constructed item has nobody attending. */
  lemma NewItemHasNoAttendees(roster: seq<Person>)
    ensures AttendeesOf(NewCalendarItem(), roster) == Ok([])
  {
  }
}
