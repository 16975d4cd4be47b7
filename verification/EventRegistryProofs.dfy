/** What `create_event` and `update_event` guarantee: when they abort, which series and
    event record a successful creation stores, and that both keep the registry invariant. */
module EventRegistryProofs {
  import opened Wrappers
  import opened Ints
  import opened Decimal
  import opened Strings
  import opened OrderedMap
  import opened TicketTypes
  import opened TokenIds
  import opened Registry
  import opened EventRegistry

  /** The first `k` iterations of the category loop succeed exactly when those
      categories have a capacity, a banner and a price each and their capacities add up
      within 32 bits; the running total is then that sum. A failure is an index or an
      overflow. */
  lemma {:induction false} CreateSeriesOutcome(series0: OMap<TokenSeriesId, TokenSeries>, caller: AccountId,
      a: CreateEventArgs, royalty: map<AccountId, U32>, k: nat)
    requires k <= |a.ticketType|
    ensures var r := CreateSeries(series0, caller, a, royalty, k);
      && (r.Ok? <==> k <= |a.capacity| && k <= |a.ticketBanners| && k <= |a.price| && CapacitySum(a.capacity, k) <= U32_MAX)
      && (r.Ok? ==> r.value.total == CapacitySum(a.capacity, k))
      && (r.Err? ==> r.error == IndexOutOfRange || r.error == CapacityOverflow)
  {
    if k > 0 {
      CreateSeriesOutcome(series0, caller, a, royalty, k - 1);
    }
  }

  /** `create_event` aborts exactly when the royalty table has seven or more accounts, a
      category lacks its capacity, banner or price, or the capacities overflow 32 bits. */
  lemma CreateEventOutcome(c: Contract, caller: AccountId, a: CreateEventArgs)
    ensures var r := CreateEvent(c, caller, a);
      && (r.Ok? <==> RoyaltyFits(a) && CategoriesFit(a) && TotalCapacity(a) <= U32_MAX)
      && (!RoyaltyFits(a) ==> r == Err(TooManyRoyaltyAccounts))
      && (RoyaltyFits(a) && !CategoriesFit(a) ==> r.Err? && (r.error == IndexOutOfRange || r.error == CapacityOverflow))
      && (r.Err? ==> r.error in {TooManyRoyaltyAccounts, IndexOutOfRange, CapacityOverflow})
  {
    CreateSeriesOutcome(c.series, caller, a, a.perpetualRoyalties.GetOr(map[]), |a.ticketType|);
  }

  /** One more iteration of a successful loop stores the next category's series under
      the next id and appends its summary. */
  lemma CreateSeriesStep(series0: OMap<TokenSeriesId, TokenSeries>, caller: AccountId,
      a: CreateEventArgs, royalty: map<AccountId, U32>, k: nat)
    requires 0 < k <= |a.ticketType|
    requires CreateSeries(series0, caller, a, royalty, k).Ok?
    ensures CreateSeries(series0, caller, a, royalty, k - 1).Ok?
    ensures k - 1 < |a.capacity| && k - 1 < |a.ticketBanners| && k - 1 < |a.price|
    ensures var p := CreateSeries(series0, caller, a, royalty, k - 1).value;
      var q := CreateSeries(series0, caller, a, royalty, k).value;
      var id := NatToString(Size(p.series) + 1);
      && q.series == Insert(p.series, id, NewSeries(caller, a, royalty, k - 1))
      && q.tickets == p.tickets + [Summary(id, NewSeries(caller, a, royalty, k - 1))]
  {
  }

  /** After `k` successful iterations the registry holds `k` more series under the next
      ids, the ids stay canonical, and there are `k` summaries. */
  lemma {:induction false} CreateSeriesShape(series0: OMap<TokenSeriesId, TokenSeries>, caller: AccountId,
      a: CreateEventArgs, royalty: map<AccountId, U32>, k: nat)
    requires k <= |a.ticketType| && SeriesKeysCanonical(series0)
    requires CreateSeries(series0, caller, a, royalty, k).Ok?
    ensures var q := CreateSeries(series0, caller, a, royalty, k).value;
      && SeriesKeysCanonical(q.series)
      && Size(q.series) == Size(series0) + k
      && q.series.keys[..Size(series0)] == series0.keys
      && |q.tickets| == k
  {
    if k > 0 {
      CreateSeriesStep(series0, caller, a, royalty, k);
      CreateSeriesShape(series0, caller, a, royalty, k - 1);
      var p := CreateSeries(series0, caller, a, royalty, k - 1).value;
      AppendNextSeries(p.series, NewSeries(caller, a, royalty, k - 1));
      var q := CreateSeries(series0, caller, a, royalty, k).value;
      assert q.series.keys[..Size(series0)] == p.series.keys[..Size(series0)];
    }
  }

  /** The last iteration stores its category's series under id `old count + k`. */
  lemma CreateSeriesLast(series0: OMap<TokenSeriesId, TokenSeries>, caller: AccountId,
      a: CreateEventArgs, royalty: map<AccountId, U32>, k: nat)
    requires 0 < k <= |a.ticketType| && SeriesKeysCanonical(series0)
    requires CreateSeries(series0, caller, a, royalty, k).Ok?
    ensures k - 1 < |a.capacity| && k - 1 < |a.ticketBanners| && k - 1 < |a.price|
    ensures var q := CreateSeries(series0, caller, a, royalty, k).value;
      var id := NatToString(Size(series0) + k);
      id in q.series.entries && q.series.entries[id] == NewSeries(caller, a, royalty, k - 1)
  {
    CreateSeriesStep(series0, caller, a, royalty, k);
    CreateSeriesShape(series0, caller, a, royalty, k - 1);
  }

  /** A later iteration leaves the series of an earlier category where it was. */
  lemma CreateSeriesLater(series0: OMap<TokenSeriesId, TokenSeries>, caller: AccountId,
      a: CreateEventArgs, royalty: map<AccountId, U32>, k: nat, j: nat)
    requires j < k - 1 && k <= |a.ticketType| && SeriesKeysCanonical(series0)
    requires CreateSeries(series0, caller, a, royalty, k).Ok?
    requires var p := CreateSeries(series0, caller, a, royalty, k - 1);
      p.Ok? && NatToString(Size(series0) + 1 + j) in p.value.series.entries
    ensures var p := CreateSeries(series0, caller, a, royalty, k - 1).value;
      var q := CreateSeries(series0, caller, a, royalty, k).value;
      var id := NatToString(Size(series0) + 1 + j);
      id in q.series.entries && q.series.entries[id] == p.series.entries[id]
  {
    CreateSeriesStep(series0, caller, a, royalty, k);
    CreateSeriesShape(series0, caller, a, royalty, k - 1);
    NatToStringInjective(Size(series0) + 1 + j, Size(series0) + k);
  }

  /** Category `j` of `k` successful iterations sits under id `old count + 1 + j`. */
  lemma {:induction false} CreateSeriesAt(series0: OMap<TokenSeriesId, TokenSeries>, caller: AccountId,
      a: CreateEventArgs, royalty: map<AccountId, U32>, k: nat, j: nat)
    requires j < k <= |a.ticketType| && SeriesKeysCanonical(series0)
    requires CreateSeries(series0, caller, a, royalty, k).Ok?
    ensures j < |a.capacity| && j < |a.ticketBanners| && j < |a.price|
    ensures var q := CreateSeries(series0, caller, a, royalty, k).value;
      var id := NatToString(Size(series0) + 1 + j);
      id in q.series.entries && q.series.entries[id] == NewSeries(caller, a, royalty, j)
  {
    if j < k - 1 {
      CreateSeriesStep(series0, caller, a, royalty, k);
      CreateSeriesAt(series0, caller, a, royalty, k - 1, j);
      CreateSeriesLater(series0, caller, a, royalty, k, j);
    } else {
      CreateSeriesLast(series0, caller, a, royalty, k);
    }
  }

  /** The `j`-th summary of `k` successful iterations is that of category `j`'s series. */
  lemma {:induction false} CreateSeriesTicketAt(series0: OMap<TokenSeriesId, TokenSeries>, caller: AccountId,
      a: CreateEventArgs, royalty: map<AccountId, U32>, k: nat, j: nat)
    requires j < k <= |a.ticketType| && SeriesKeysCanonical(series0)
    requires CreateSeries(series0, caller, a, royalty, k).Ok?
    ensures j < |a.capacity| && j < |a.ticketBanners| && j < |a.price|
    ensures var q := CreateSeries(series0, caller, a, royalty, k).value;
      && j < |q.tickets|
      && q.tickets[j] == Summary(NatToString(Size(series0) + 1 + j), NewSeries(caller, a, royalty, j))
  {
    CreateSeriesStep(series0, caller, a, royalty, k);
    CreateSeriesShape(series0, caller, a, royalty, k - 1);
    if j < k - 1 {
      CreateSeriesTicketAt(series0, caller, a, royalty, k - 1, j);
    }
  }

  /** The series present before the loop keep their values. */
  lemma {:induction false} CreateSeriesKeeps(series0: OMap<TokenSeriesId, TokenSeries>, caller: AccountId,
      a: CreateEventArgs, royalty: map<AccountId, U32>, k: nat, id: TokenSeriesId)
    requires k <= |a.ticketType| && SeriesKeysCanonical(series0)
    requires CreateSeries(series0, caller, a, royalty, k).Ok?
    requires id in series0.entries
    ensures var q := CreateSeries(series0, caller, a, royalty, k).value;
      id in q.series.entries && q.series.entries[id] == series0.entries[id]
  {
    if k > 0 {
      CreateSeriesStep(series0, caller, a, royalty, k);
      CreateSeriesShape(series0, caller, a, royalty, k - 1);
      CreateSeriesKeeps(series0, caller, a, royalty, k - 1, id);
      SeriesIdSetExcludes(Size(series0), Size(series0) + k);
    }
  }

  /** Every id the loop added is one of the next `k` ids. */
  lemma {:induction false} CreateSeriesNew(series0: OMap<TokenSeriesId, TokenSeries>, caller: AccountId,
      a: CreateEventArgs, royalty: map<AccountId, U32>, k: nat, id: TokenSeriesId) returns (j: nat)
    requires k <= |a.ticketType| && SeriesKeysCanonical(series0)
    requires CreateSeries(series0, caller, a, royalty, k).Ok?
    requires id in CreateSeries(series0, caller, a, royalty, k).value.series.entries && id !in series0.entries
    ensures j < k && id == NatToString(Size(series0) + 1 + j)
  {
    assert k != 0;
    CreateSeriesStep(series0, caller, a, royalty, k);
    CreateSeriesShape(series0, caller, a, royalty, k - 1);
    if id == NatToString(Size(series0) + k) {
      j := k - 1;
    } else {
      j := CreateSeriesNew(series0, caller, a, royalty, k - 1, id);
    }
  }

  /** After the whole loop, the series present before it are untouched. */
  lemma CreateSeriesKept(series0: OMap<TokenSeriesId, TokenSeries>, caller: AccountId,
      a: CreateEventArgs, royalty: map<AccountId, U32>, q: OMap<TokenSeriesId, TokenSeries>)
    requires SeriesKeysCanonical(series0)
    requires CreateSeries(series0, caller, a, royalty, |a.ticketType|).Ok?
    requires CreateSeries(series0, caller, a, royalty, |a.ticketType|).value.series == q
    ensures forall id :: id in series0.entries ==> id in q.entries && q.entries[id] == series0.entries[id]
  {
    forall id | id in series0.entries
      ensures id in q.entries && q.entries[id] == series0.entries[id]
    {
      CreateSeriesKeeps(series0, caller, a, royalty, |a.ticketType|, id);
    }
  }

  /** After the whole loop the ids of the new series follow the old ones in the id
      vector: position `i` holds id `i + 1`. */
  lemma CreateSeriesNewKeys(series0: OMap<TokenSeriesId, TokenSeries>, caller: AccountId,
      a: CreateEventArgs, royalty: map<AccountId, U32>, q: OMap<TokenSeriesId, TokenSeries>)
    requires SeriesKeysCanonical(series0)
    requires CreateSeries(series0, caller, a, royalty, |a.ticketType|).Ok?
    requires CreateSeries(series0, caller, a, royalty, |a.ticketType|).value.series == q
    ensures Size(q) == Size(series0) + |a.ticketType|
    ensures forall i :: Size(series0) <= i < |q.keys| ==> q.keys[i] == NatToString(i + 1)
  {
    CreateSeriesShape(series0, caller, a, royalty, |a.ticketType|);
    forall i | Size(series0) <= i < |q.keys|
      ensures q.keys[i] == NatToString(i + 1)
    {
      SeriesIdsAt(|q.keys|, i);
    }
  }

  /** After the whole loop, category `j`'s series is stored under id `old count + 1 + j`. */
  lemma CreateSeriesAdded(series0: OMap<TokenSeriesId, TokenSeries>, caller: AccountId,
      a: CreateEventArgs, royalty: map<AccountId, U32>, q: OMap<TokenSeriesId, TokenSeries>)
    requires SeriesKeysCanonical(series0)
    requires CreateSeries(series0, caller, a, royalty, |a.ticketType|).Ok?
    requires CreateSeries(series0, caller, a, royalty, |a.ticketType|).value.series == q
    ensures CategoriesFit(a)
    ensures forall j :: 0 <= j < |a.ticketType| ==>
      Get(q, NatToString(Size(series0) + 1 + j)) == Some(NewSeries(caller, a, royalty, j))
  {
    CreateSeriesOutcome(series0, caller, a, royalty, |a.ticketType|);
    forall j | 0 <= j < |a.ticketType|
      ensures Get(q, NatToString(Size(series0) + 1 + j)) == Some(NewSeries(caller, a, royalty, j))
    {
      CreateSeriesAt(series0, caller, a, royalty, |a.ticketType|, j);
    }
  }

  /** After the whole loop, summary `j` is that of category `j`'s series. */
  lemma CreateSeriesSummaries(series0: OMap<TokenSeriesId, TokenSeries>, caller: AccountId,
      a: CreateEventArgs, royalty: map<AccountId, U32>, q: Progress)
    requires SeriesKeysCanonical(series0)
    requires CreateSeries(series0, caller, a, royalty, |a.ticketType|) == Ok(q)
    ensures CategoriesFit(a)
    ensures |q.tickets| == |a.ticketType|
    ensures forall j :: 0 <= j < |a.ticketType| ==>
      q.tickets[j] == Summary(NatToString(Size(series0) + 1 + j), NewSeries(caller, a, royalty, j))
  {
    CreateSeriesOutcome(series0, caller, a, royalty, |a.ticketType|);
    CreateSeriesShape(series0, caller, a, royalty, |a.ticketType|);
    forall j | 0 <= j < |a.ticketType|
      ensures q.tickets[j] == Summary(NatToString(Size(series0) + 1 + j), NewSeries(caller, a, royalty, j))
    {
      CreateSeriesTicketAt(series0, caller, a, royalty, |a.ticketType|, j);
    }
  }

  /** Every series the loop adds is mintable, has no tickets yet and a supply bound. */
  lemma CreateSeriesFreshInvariant(series0: OMap<TokenSeriesId, TokenSeries>, caller: AccountId,
      a: CreateEventArgs, royalty: map<AccountId, U32>, q: OMap<TokenSeriesId, TokenSeries>, id: TokenSeriesId)
    requires SeriesKeysCanonical(series0)
    requires CreateSeries(series0, caller, a, royalty, |a.ticketType|).Ok?
    requires CreateSeries(series0, caller, a, royalty, |a.ticketType|).value.series == q
    requires id in q.entries && id !in series0.entries
    ensures q.entries[id].tokens == {} && SeriesInvariant(id, q.entries[id])
  {
    var j := CreateSeriesNew(series0, caller, a, royalty, |a.ticketType|, id);
    CreateSeriesAt(series0, caller, a, royalty, |a.ticketType|, j);
    assert IssuedIds(id, 0) == {};
  }

  /** The loop keeps the series registry invariant and issues no ticket. */
  lemma CreateSeriesValid(series0: OMap<TokenSeriesId, TokenSeries>, caller: AccountId,
      a: CreateEventArgs, royalty: map<AccountId, U32>, q: OMap<TokenSeriesId, TokenSeries>)
    requires SeriesValid(series0)
    requires CreateSeries(series0, caller, a, royalty, |a.ticketType|).Ok?
    requires CreateSeries(series0, caller, a, royalty, |a.ticketType|).value.series == q
    ensures SeriesValid(q)
    ensures forall t :: IssuedBy(q, t) <==> IssuedBy(series0, t)
  {
    CreateSeriesShape(series0, caller, a, royalty, |a.ticketType|);
    CreateSeriesKept(series0, caller, a, royalty, q);
    forall id | id in q.entries && id !in series0.entries
      ensures q.entries[id].tokens == {} && SeriesInvariant(id, q.entries[id])
    {
      CreateSeriesFreshInvariant(series0, caller, a, royalty, q, id);
    }
    forall t
      ensures IssuedBy(q, t) <==> IssuedBy(series0, t)
    {
      if IssuedBy(q, t) {
        var id :| id in q.entries && t in q.entries[id].tokens;
        assert id in series0.entries;
      }
      if IssuedBy(series0, t) {
        var id :| id in series0.entries && t in series0.entries[id].tokens;
        assert id in q.entries;
      }
    }
  }

  /** A successful `create_event` ran the loop over every category to completion and
      stored what it built. */
  lemma CreateEventLoop(c: Contract, caller: AccountId, a: CreateEventArgs)
    requires CreateEvent(c, caller, a).Ok?
    ensures var r := CreateSeries(c.series, caller, a, a.perpetualRoyalties.GetOr(map[]), |a.ticketType|);
      && r.Ok?
      && var (c', e) := CreateEvent(c, caller, a).value;
      && c'.series == r.value.series && e.tickets == r.value.tickets && e.capacity == r.value.total
      && c'.events == Insert(c.events, Size(c.events) + 1, e)
  {
  }

  /** The series of a successful `create_event`: the old series are untouched, the new
      ids follow the old ones in iteration order, and category `j`'s series is stored
      under id `old count + 1 + j`. */
  lemma CreateEventSeries(c: Contract, caller: AccountId, a: CreateEventArgs)
    requires SeriesKeysCanonical(c.series)
    requires CreateEvent(c, caller, a).Ok?
    ensures CategoriesFit(a)
    ensures var c' := CreateEvent(c, caller, a).value.0;
      && Size(c'.series) == Size(c.series) + |a.ticketType|
      && c'.series.keys[..Size(c.series)] == c.series.keys
      && (forall i :: Size(c.series) <= i < |c'.series.keys| ==> c'.series.keys[i] == NatToString(i + 1))
      && (forall id :: id in c.series.entries ==> id in c'.series.entries && c'.series.entries[id] == c.series.entries[id])
      && forall j :: 0 <= j < |a.ticketType| ==>
        Get(c'.series, NatToString(Size(c.series) + 1 + j)) == Some(NewSeries(caller, a, a.perpetualRoyalties.GetOr(map[]), j))
  {
    var royalty := a.perpetualRoyalties.GetOr(map[]);
    var c' := CreateEvent(c, caller, a).value.0;
    CreateEventLoop(c, caller, a);
    CreateSeriesShape(c.series, caller, a, royalty, |a.ticketType|);
    CreateSeriesNewKeys(c.series, caller, a, royalty, c'.series);
    CreateSeriesKept(c.series, caller, a, royalty, c'.series);
    CreateSeriesAdded(c.series, caller, a, royalty, c'.series);
  }

  /** The fields of the series `create_event` builds for category `j`. */
  lemma NewSeriesFields(caller: AccountId, a: CreateEventArgs, royalty: map<AccountId, U32>, j: nat)
    requires j < |a.ticketType| && j < |a.capacity| && j < |a.ticketBanners| && j < |a.price|
    ensures var s := NewSeries(caller, a, royalty, j);
      && s.metadata.title == Some(PushStr(a.name, [TITLE_DELIMITER, a.ticketType[j]]))
      && s.metadata.copies == Some(a.capacity[j] as U64)
      && s.metadata.media == Some(a.ticketBanners[j])
      && s.metadata.extra == Some(EXTRA_UNCONFIRMED)
      && s.price == Some(a.price[j])
      && s.isMintable && s.tokens == {}
      && s.creatorId == caller && s.royalty == royalty
  {
    PushStrTwo(a.name, TITLE_DELIMITER, a.ticketType[j]);
  }

  /** The event record of a successful `create_event`: stored at the next index, with the
      summed capacity and the summaries of exactly the series just created; the events
      already stored are untouched and the event count grows by one. */
  lemma CreateEventRecord(c: Contract, caller: AccountId, a: CreateEventArgs)
    requires SeriesKeysCanonical(c.series) && EventsCanonical(c.events)
    requires CreateEvent(c, caller, a).Ok?
    ensures CategoriesFit(a)
    ensures var (c', e) := CreateEvent(c, caller, a).value;
      && e.capacity == TotalCapacity(a)
      && Size(c'.events) == Size(c.events) + 1
      && c'.events.keys == c.events.keys + [e.index]
      && (forall k :: k in c.events.entries ==> k in c'.events.entries && c'.events.entries[k] == c.events.entries[k])
      && |e.tickets| == |a.ticketType|
      && forall j :: 0 <= j < |a.ticketType| ==>
        e.tickets[j] == Summary(NatToString(Size(c.series) + 1 + j), NewSeries(caller, a, a.perpetualRoyalties.GetOr(map[]), j))
  {
    var royalty := a.perpetualRoyalties.GetOr(map[]);
    var e := CreateEvent(c, caller, a).value.1;
    CreateEventLoop(c, caller, a);
    CreateSeriesOutcome(c.series, caller, a, royalty, |a.ticketType|);
    CreateSeriesSummaries(c.series, caller, a, royalty,
      CreateSeries(c.series, caller, a, royalty, |a.ticketType|).value);
    AppendNextEvent(c.events, e);
  }

  /** A successful `create_event` keeps the registry invariant. */
  lemma CreateEventPreservesValid(c: Contract, caller: AccountId, a: CreateEventArgs)
    requires Valid(c)
    requires CreateEvent(c, caller, a).Ok?
    ensures Valid(CreateEvent(c, caller, a).value.0)
  {
    CreateEventLoop(c, caller, a);
    CreateSeriesValid(c.series, caller, a, a.perpetualRoyalties.GetOr(map[]), CreateEvent(c, caller, a).value.0.series);
    AppendNextEvent(c.events, CreateEvent(c, caller, a).value.1);
  }

  /** A successful `update_event` keeps the registry invariant. */
  lemma UpdateEventPreservesValid(c: Contract, signer: AccountId, index: int, description: string,
                                  banner: string, status: U8, date: string)
    requires Valid(c)
    requires UpdateEvent(c, signer, index, description, banner, status, date).Ok?
    ensures Valid(UpdateEvent(c, signer, index, description, banner, status, date).value.0)
  {
  }
}
