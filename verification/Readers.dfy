/** The read-only entry points: `get_events`, `get_event_tickets` and `get_events_supply`.
    Both listings page through a map in insertion order with an iterator's `skip` and
    `take`. The contract converts the page bounds with `as usize`, which on the 32-bit
    WebAssembly target keeps only the low 32 bits; the members named `AsWritten` model
    that conversion, the others the evidently intended page with the bounds as given. */
module Readers {
  import opened Wrappers
  import opened Ints
  import opened Decimal
  import opened OrderedMap
  import opened TicketTypes
  import opened Registry
  import opened EventRegistry

  /** The page size `get_events` uses when none is given. */
  const DEFAULT_EVENTS_LIMIT: nat := 50

  /** How many of `total` elements a page skipping `skip` and taking `take` holds. */
  function PageLength(total: nat, skip: nat, take: nat): nat {
    if skip >= total then 0 else Min(take, total - skip)
  }

  /** `iter().skip(skip).take(take)`: the elements from position `skip` on, at most `take`
      of them. */
  function Page<T>(s: seq<T>, skip: nat, take: nat): (r: seq<T>)
    ensures |r| == PageLength(|s|, skip, take)
    ensures forall i :: 0 <= i < |r| ==> r[i] == s[skip + i]
  {
    if skip >= |s| then []
    else if take >= |s| - skip then s[skip..]
    else s[skip..skip + take]
  }

  /** Two consecutive pages make up the page of their combined size. */
  lemma PageConcat<T>(s: seq<T>, skip: nat, m: nat, n: nat)
    ensures Page(s, skip, m) + Page(s, skip + m, n) == Page(s, skip, m + n)
  {
    var a, b, ab := Page(s, skip, m), Page(s, skip + m, n), Page(s, skip, m + n);
    assert |a + b| == |ab|;
    forall i | 0 <= i < |ab|
      ensures (a + b)[i] == ab[i]
    {
      if i >= |a| {
        assert (a + b)[i] == b[i - |a|];
      }
    }
  }

  /** Each event of the page, looked up again under the index it records, as the closure
      in `get_events` does; `MissingEvent` when some recorded index is not a key. */
  function LookUpAgain(events: OMap<int, Event>, page: seq<Event>): (r: Result<seq<Event>, Error>)
    ensures r.Ok? <==> forall i :: 0 <= i < |page| ==> page[i].index in events.entries
    ensures r.Ok? ==> |r.value| == |page|
    ensures r.Ok? ==> forall i :: 0 <= i < |page| ==> r.value[i] == events.entries[page[i].index]
    ensures r.Err? ==> r.error == MissingEvent
  {
    if forall i :: 0 <= i < |page| ==> page[i].index in events.entries then
      Ok(seq(|page|, i requires 0 <= i < |page| => events.entries[page[i].index]))
    else Err(MissingEvent)
  }

  /** `get_events` as written: the page bounds go through `as usize`. */
  function GetEventsAsWritten(c: Contract, fromIndex: Option<U128>, limit: Option<U64>): (r: Result<seq<Event>, Error>)
    requires Aligned(c.events)
    ensures var start, n := AsUsize(fromIndex.GetOr(0)), AsUsize(limit.GetOr(DEFAULT_EVENTS_LIMIT));
      r.Ok? ==> |r.value| == PageLength(Size(c.events), start, n)
    ensures r.Ok? ==> forall i :: 0 <= i < |r.value| ==>
      && AsUsize(fromIndex.GetOr(0)) + i < Size(c.events)
      && c.events.entries[c.events.keys[AsUsize(fromIndex.GetOr(0)) + i]].index in c.events.entries
      && r.value[i] == c.events.entries[c.events.entries[c.events.keys[AsUsize(fromIndex.GetOr(0)) + i]].index]
  {
    var page := Page(Values(c.events), AsUsize(fromIndex.GetOr(0)), AsUsize(limit.GetOr(DEFAULT_EVENTS_LIMIT)));
    LookUpAgain(c.events, page)
  }

  /** `get_events` with the page bounds taken as given. */
  function GetEvents(c: Contract, fromIndex: Option<U128>, limit: Option<U64>): (r: Result<seq<Event>, Error>)
    requires Aligned(c.events)
    ensures var start, n := fromIndex.GetOr(0), limit.GetOr(DEFAULT_EVENTS_LIMIT);
      r.Ok? ==> |r.value| == PageLength(Size(c.events), start, n)
    ensures r.Ok? ==> forall i :: 0 <= i < |r.value| ==>
      && fromIndex.GetOr(0) + i < Size(c.events)
      && c.events.entries[c.events.keys[fromIndex.GetOr(0) + i]].index in c.events.entries
      && r.value[i] == c.events.entries[c.events.entries[c.events.keys[fromIndex.GetOr(0) + i]].index]
  {
    var page := Page(Values(c.events), fromIndex.GetOr(0), limit.GetOr(DEFAULT_EVENTS_LIMIT));
    LookUpAgain(c.events, page)
  }

  /** Canonical events are aligned, and the event at position `i` of the value vector
      records index `i + 1`, under which it is stored. */
  lemma EventsAligned(events: OMap<int, Event>)
    requires EventsCanonical(events)
    ensures Aligned(events)
    ensures forall i :: 0 <= i < |Values(events)| ==>
      && Values(events)[i].index == i + 1
      && Values(events)[i].index in events.entries
      && events.entries[Values(events)[i].index] == Values(events)[i]
  {
    forall i | 0 <= i < |events.keys|
      ensures events.keys[i] == i + 1 && events.keys[i] in events.entries
    {
      EventIndicesAt(|events.keys|, i);
      EventIndexSetRange(|events.keys|, i + 1);
    }
  }

  /** Looking up again events stored under the index they record changes nothing. */
  lemma LookUpAgainStored(events: OMap<int, Event>, page: seq<Event>)
    requires forall i :: 0 <= i < |page| ==> page[i].index in events.entries && events.entries[page[i].index] == page[i]
    ensures LookUpAgain(events, page) == Ok(page)
  {
    var r := LookUpAgain(events, page);
    assert r.Ok? && |r.value| == |page|;
    assert forall i :: 0 <= i < |page| ==> r.value[i] == page[i];
    assert r.value == page;
  }

  /** In a valid state `get_events` never aborts, and its page is the run of events from
      position `from_index` of the value vector on, as many as the limit allows and as
      exist there. */
  lemma GetEventsIsPage(c: Contract, fromIndex: Option<U128>, limit: Option<U64>)
    requires EventsCanonical(c.events)
    ensures Aligned(c.events)
    ensures GetEvents(c, fromIndex, limit)
         == Ok(Page(Values(c.events), fromIndex.GetOr(0), limit.GetOr(DEFAULT_EVENTS_LIMIT)))
  {
    EventsAligned(c.events);
    var vs := Values(c.events);
    var start := fromIndex.GetOr(0);
    var page := Page(vs, start, limit.GetOr(DEFAULT_EVENTS_LIMIT));
    forall i | 0 <= i < |page|
      ensures page[i].index in c.events.entries && c.events.entries[page[i].index] == page[i]
    {
      assert page[i] == vs[start + i];
    }
    LookUpAgainStored(c.events, page);
  }

  /** So the page lists the events with indices `from_index + 1`, `from_index + 2`, …. */
  lemma GetEventsListsIndices(c: Contract, fromIndex: Option<U128>, limit: Option<U64>)
    requires EventsCanonical(c.events)
    ensures Aligned(c.events)
    ensures GetEvents(c, fromIndex, limit).Ok?
    ensures forall i :: 0 <= i < |GetEvents(c, fromIndex, limit).value| ==>
      GetEvents(c, fromIndex, limit).value[i].index == fromIndex.GetOr(0) + i + 1
  {
    GetEventsIsPage(c, fromIndex, limit);
    EventsAligned(c.events);
    var vs := Values(c.events);
    var page := Page(vs, fromIndex.GetOr(0), limit.GetOr(DEFAULT_EVENTS_LIMIT));
    forall i | 0 <= i < |page|
      ensures page[i].index == fromIndex.GetOr(0) + i + 1
    {
      assert page[i] == vs[fromIndex.GetOr(0) + i];
    }
  }

  /** Paging through the events with consecutive windows visits them in order. */
  lemma GetEventsConsecutive(c: Contract, start: U128, m: U64, n: U64)
    requires EventsCanonical(c.events)
    requires start + m <= U128_MAX && m + n <= U64_MAX
    ensures Aligned(c.events)
    ensures GetEvents(c, Some(start), Some(m)).Ok? && GetEvents(c, Some(start + m), Some(n)).Ok?
    ensures GetEvents(c, Some(start), Some(m + n)).Ok?
    ensures GetEvents(c, Some(start), Some(m)).value + GetEvents(c, Some(start + m), Some(n)).value
         == GetEvents(c, Some(start), Some(m + n)).value
  {
    GetEventsIsPage(c, Some(start), Some(m));
    GetEventsIsPage(c, Some(start + m), Some(n));
    GetEventsIsPage(c, Some(start), Some(m + n));
    var vs := Values(c.events);
    assert GetEvents(c, Some(start), Some(m)).value == Page(vs, start, m);
    assert GetEvents(c, Some(start + m), Some(n)).value == Page(vs, start + m, n);
    assert GetEvents(c, Some(start), Some(m + n)).value == Page(vs, start, m + n);
    PageConcat(vs, start, m, n);
  }

  /** `get_events` as written is the intended reader applied to the truncated bounds. */
  lemma GetEventsAsWrittenTruncates(c: Contract, fromIndex: Option<U128>, limit: Option<U64>)
    requires Aligned(c.events)
    ensures GetEventsAsWritten(c, fromIndex, limit)
         == GetEvents(c, Some(AsUsize(fromIndex.GetOr(0))), Some(AsUsize(limit.GetOr(DEFAULT_EVENTS_LIMIT))))
  {
  }

  /** So in a valid state `get_events` as written never aborts either: it lists the events
      with indices `start + 1`, `start + 2`, … for the truncated start. */
  lemma GetEventsAsWrittenNeverAborts(c: Contract, fromIndex: Option<U128>, limit: Option<U64>)
    requires EventsCanonical(c.events)
    ensures Aligned(c.events)
    ensures GetEventsAsWritten(c, fromIndex, limit).Ok?
    ensures forall i :: 0 <= i < |GetEventsAsWritten(c, fromIndex, limit).value| ==>
      GetEventsAsWritten(c, fromIndex, limit).value[i].index == AsUsize(fromIndex.GetOr(0)) + i + 1
  {
    EventsAligned(c.events);
    GetEventsAsWrittenTruncates(c, fromIndex, limit);
    GetEventsListsIndices(c, Some(AsUsize(fromIndex.GetOr(0))), Some(AsUsize(limit.GetOr(DEFAULT_EVENTS_LIMIT))));
  }

  /** The summaries of all series, in insertion order. */
  function Summaries(series: OMap<TokenSeriesId, TokenSeries>): (r: seq<TokenSeriesJson>)
    requires Aligned(series)
    ensures |r| == Size(series)
    ensures forall i :: 0 <= i < |r| ==> r[i] == Summary(series.keys[i], series.entries[series.keys[i]])
  {
    seq(|series.keys|, i requires 0 <= i < |series.keys| => Summary(series.keys[i], series.entries[series.keys[i]]))
  }

  /** `get_event_tickets` as written: the start must lie inside the registry, the limit
      (all series when absent) goes through `as usize` and must not be zero, and the start
      goes through `as usize` too. */
  function GetEventTicketsAsWritten(c: Contract, fromIndex: Option<U128>, limit: Option<U64>)
    : (r: Result<seq<TokenSeriesJson>, Error>)
    requires Aligned(c.series)
    ensures Size(c.series) <= fromIndex.GetOr(0) ==> r == Err(OutOfBounds)
    ensures Size(c.series) > fromIndex.GetOr(0) && limit.Some? && AsUsize(limit.value) == 0 ==> r == Err(ZeroLimit)
    ensures r.Ok? <==> Size(c.series) > fromIndex.GetOr(0) && (limit.None? || AsUsize(limit.value) != 0)
    ensures r.Ok? ==> 0 < |r.value| && (limit.Some? ==> |r.value| <= AsUsize(limit.value))
    ensures r.Ok? ==> |r.value| == Min(if limit.Some? then AsUsize(limit.value) else USIZE_MAX,
                                       Size(c.series) - AsUsize(fromIndex.GetOr(0)))
    ensures r.Ok? ==> forall i :: 0 <= i < |r.value| ==>
      && AsUsize(fromIndex.GetOr(0)) + i < Size(c.series)
      && r.value[i] == Summary(c.series.keys[AsUsize(fromIndex.GetOr(0)) + i],
                               c.series.entries[c.series.keys[AsUsize(fromIndex.GetOr(0)) + i]])
  {
    var start := fromIndex.GetOr(0);
    if Size(c.series) <= start then Err(OutOfBounds)
    else
      var n := match limit case Some(v) => AsUsize(v) case None => USIZE_MAX;
      if n == 0 then Err(ZeroLimit)
      else Ok(Page(Summaries(c.series), AsUsize(start), n))
  }

  /** `get_event_tickets` with the limit taken as given. */
  function GetEventTickets(c: Contract, fromIndex: Option<U128>, limit: Option<U64>)
    : (r: Result<seq<TokenSeriesJson>, Error>)
    requires Aligned(c.series)
    ensures Size(c.series) <= fromIndex.GetOr(0) ==> r == Err(OutOfBounds)
    ensures Size(c.series) > fromIndex.GetOr(0) && limit == Some(0) ==> r == Err(ZeroLimit)
    ensures r.Ok? <==> Size(c.series) > fromIndex.GetOr(0) && limit != Some(0)
    ensures r.Ok? ==> 0 < |r.value| && (limit.Some? ==> |r.value| <= limit.value)
    ensures r.Ok? ==> |r.value| == Min(limit.GetOr(USIZE_MAX), Size(c.series) - fromIndex.GetOr(0))
    ensures r.Ok? ==> forall i :: 0 <= i < |r.value| ==>
      && fromIndex.GetOr(0) + i < Size(c.series)
      && r.value[i] == Summary(c.series.keys[fromIndex.GetOr(0) + i], c.series.entries[c.series.keys[fromIndex.GetOr(0) + i]])
  {
    var start := fromIndex.GetOr(0);
    if Size(c.series) <= start then Err(OutOfBounds)
    else
      var n := limit.GetOr(USIZE_MAX);
      if n == 0 then Err(ZeroLimit)
      else Ok(Page(Summaries(c.series), start, n))
  }

  /** Canonical series ids are aligned: position `i` holds id `i + 1`, which is a key. */
  lemma SeriesAligned<V>(series: OMap<TokenSeriesId, V>)
    requires SeriesKeysCanonical(series)
    ensures Aligned(series)
    ensures forall i :: 0 <= i < |series.keys| ==> series.keys[i] == NatToString(i + 1)
  {
    forall i | 0 <= i < |series.keys|
      ensures series.keys[i] == NatToString(i + 1) && series.keys[i] in series.entries
    {
      SeriesIdsAt(|series.keys|, i);
    }
  }

  /** In a valid state a page of `get_event_tickets` lists series `from_index + 1`, … with
      their current metadata, creator, flag and price. */
  lemma GetEventTicketsListsSeries(c: Contract, fromIndex: Option<U128>, limit: Option<U64>)
    requires SeriesKeysCanonical(c.series) && Aligned(c.series)
    requires GetEventTickets(c, fromIndex, limit).Ok?
    ensures var r := GetEventTickets(c, fromIndex, limit).value;
      forall i :: 0 <= i < |r| ==>
        && r[i].tokenSeriesId == NatToString(fromIndex.GetOr(0) + i + 1)
        && r[i].tokenSeriesId in c.series.entries
        && r[i] == Summary(r[i].tokenSeriesId, c.series.entries[r[i].tokenSeriesId])
  {
    SeriesAligned(c.series);
    var start := fromIndex.GetOr(0);
    var r := GetEventTickets(c, fromIndex, limit).value;
    forall i | 0 <= i < |r|
      ensures r[i].tokenSeriesId == NatToString(start + i + 1) && r[i].tokenSeriesId in c.series.entries
      ensures r[i] == Summary(r[i].tokenSeriesId, c.series.entries[r[i].tokenSeriesId])
    {
      assert c.series.keys[start + i] == NatToString(start + i + 1);
    }
  }

  /** The as-written `get_event_tickets` agrees with the intended one whenever the start
      and the limit fit in 32 bits. */
  lemma GetEventTicketsAsWrittenAgrees(c: Contract, fromIndex: Option<U128>, limit: Option<U64>)
    requires Aligned(c.series)
    ensures fromIndex.GetOr(0) <= USIZE_MAX && limit.GetOr(0) <= USIZE_MAX
        ==> GetEventTicketsAsWritten(c, fromIndex, limit) == GetEventTickets(c, fromIndex, limit)
  {
  }

  /** `get_events_supply`: the number of events, which in a valid state are exactly the
      events at indices 1 … supply. */
  function GetEventsSupply(c: Contract): (n: nat)
    ensures EventsCanonical(c.events) ==> c.events.entries.Keys == EventIndexSet(n)
  {
    Size(c.events)
  }

  /** In a valid state the supply counts the distinct events, and an index names an event
      exactly when it lies between 1 and the supply. */
  lemma SupplyCountsEvents(c: Contract, index: int)
    requires EventsCanonical(c.events)
    ensures GetEvent(c, index).Ok? <==> 1 <= index <= GetEventsSupply(c)
  {
    EventIndexSetRange(Size(c.events), index);
  }

  // Counterexamples for the three `as usize` conversions.

  /** A start of 2^32 wraps around to 0: `get_events` returns the page from the first
      event (events 1, 2, … by `GetEventsListsIndices`), where the intended page past every
      event is empty. */
  lemma GetEventsStartWraps(c: Contract)
    requires EventsCanonical(c.events)
    requires 0 < Size(c.events)
    ensures Aligned(c.events)
    ensures GetEventsAsWritten(c, Some(0x1_0000_0000), None).Ok?
    ensures |GetEventsAsWritten(c, Some(0x1_0000_0000), None).value| == Min(DEFAULT_EVENTS_LIMIT, Size(c.events))
    ensures GetEventsAsWritten(c, Some(0x1_0000_0000), None) == GetEvents(c, Some(0), None)
    ensures Size(c.events) <= 0x1_0000_0000 ==> GetEvents(c, Some(0x1_0000_0000), None) == Ok([])
  {
    EventsAligned(c.events);
    GetEventsListsIndices(c, Some(0), None);
    GetEventsListsIndices(c, Some(0x1_0000_0000), None);
    assert GetEventsAsWritten(c, Some(0x1_0000_0000), None) == GetEvents(c, Some(0), None);
  }

  /** A limit of 2^32 wraps around to 0: `get_events` lists nothing, where the intended page
      holds every event. */
  lemma GetEventsLimitWraps(c: Contract)
    requires EventsCanonical(c.events)
    requires 0 < Size(c.events)
    ensures Aligned(c.events)
    ensures GetEventsAsWritten(c, None, Some(0x1_0000_0000)) == Ok([])
    ensures GetEvents(c, None, Some(0x1_0000_0000)).Ok?
    ensures |GetEvents(c, None, Some(0x1_0000_0000)).value| == Min(0x1_0000_0000, Size(c.events))
  {
    EventsAligned(c.events);
    GetEventsListsIndices(c, None, Some(0x1_0000_0000));
  }

  /** A limit of 2^32 wraps around to 0: `get_event_tickets` aborts with "Cannot provide
      limit of 0", where the intended page holds every series from the start on. */
  lemma GetEventTicketsLimitWraps(c: Contract)
    requires SeriesKeysCanonical(c.series)
    requires 0 < Size(c.series)
    ensures Aligned(c.series)
    ensures GetEventTicketsAsWritten(c, None, Some(0x1_0000_0000)) == Err(ZeroLimit)
    ensures GetEventTickets(c, None, Some(0x1_0000_0000)).Ok?
    ensures |GetEventTickets(c, None, Some(0x1_0000_0000)).value| == Min(0x1_0000_0000, Size(c.series))
  {
    SeriesAligned(c.series);
  }
}
