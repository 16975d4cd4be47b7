/** The invariant every contract state reachable through the modelled entry points
    satisfies: event indices are 1, 2, … in insertion order, series ids are "1", "2", …
    in insertion order, every series keeps its supply bound and mintability flag
    consistent and has issued exactly its first tickets, and the token registry holds
    exactly the issued tickets. */
module Registry {
  import opened Ints
  import opened Decimal
  import opened OrderedMap
  import opened TicketTypes
  import opened TokenIds

  /** The indices 1, 2, …, n in order. */
  function EventIndices(n: nat): seq<int> {
    if n == 0 then [] else EventIndices(n - 1) + [n]
  }

  function EventIndexSet(n: nat): set<int> {
    if n == 0 then {} else EventIndexSet(n - 1) + {n}
  }

  /** The series ids "1", "2", …, n in order, and as a set. */
  function SeriesIds(n: nat): seq<TokenSeriesId> {
    if n == 0 then [] else SeriesIds(n - 1) + [NatToString(n)]
  }

  function SeriesIdSet(n: nat): set<TokenSeriesId> {
    if n == 0 then {} else SeriesIdSet(n - 1) + {NatToString(n)}
  }

  /** Events sit at indices 1 … n in insertion order, each recording its own index. */
  ghost predicate EventsCanonical(events: OMap<int, Event>) {
    && events.keys == EventIndices(|events.keys|)
    && events.entries.Keys == EventIndexSet(|events.keys|)
    && forall i :: i in events.entries ==> events.entries[i].index == i
  }

  /** Series sit under ids "1" … n in insertion order. */
  ghost predicate SeriesKeysCanonical<V>(series: OMap<TokenSeriesId, V>) {
    && series.keys == SeriesIds(|series.keys|)
    && series.entries.Keys == SeriesIdSet(|series.keys|)
  }

  /** Supply bound, flag consistency and the shape of the issued set of one series. The
      flag is off exactly when the series is sold out after at least one sale: a series
      created with zero copies stays flagged mintable although nothing can be minted. */
  ghost predicate SeriesInvariant(id: TokenSeriesId, s: TokenSeries) {
    && |s.tokens| <= MaxCopies(s)
    && (s.isMintable <==> (|s.tokens| < MaxCopies(s) || |s.tokens| == 0))
    && s.tokens == IssuedIds(id, |s.tokens|)
  }

  /** Ticket `t` was issued by some series of the registry. */
  ghost predicate IssuedBy(series: OMap<TokenSeriesId, TokenSeries>, t: TokenId) {
    exists id :: id in series.entries && t in series.entries[id].tokens
  }

  /** The series registry part of the invariant. */
  ghost predicate SeriesValid(series: OMap<TokenSeriesId, TokenSeries>) {
    && SeriesKeysCanonical(series)
    && forall id :: id in series.entries ==> SeriesInvariant(id, series.entries[id])
  }

  ghost predicate Valid(c: Contract) {
    && EventsCanonical(c.events)
    && SeriesValid(c.series)
    && (forall t :: t in c.tokensById <==> IssuedBy(c.series, t))
    && c.tokenMetadataById.Keys == c.tokensById.Keys
  }

  lemma FreshIsValid(treasury: AccountId)
    ensures Valid(Fresh(treasury))
  {
  }

  lemma {:induction false} SeriesIdSetDigits(n: nat, id: TokenSeriesId)
    requires id in SeriesIdSet(n)
    ensures IsDigits(id)
  {
    if id != NatToString(n) {
      SeriesIdSetDigits(n - 1, id);
    }
  }

  lemma {:induction false} SeriesIdSetExcludes(n: nat, k: nat)
    requires k > n
    ensures NatToString(k) !in SeriesIdSet(n)
  {
    if n > 0 {
      NatToStringInjective(k, n);
      SeriesIdSetExcludes(n - 1, k);
    }
  }

  /** Position `i` of the id vector holds id `i + 1`, which is one of the ids. */
  lemma {:induction false} SeriesIdsAt(n: nat, i: nat)
    requires i < n
    ensures |SeriesIds(n)| == n
    ensures SeriesIds(n)[i] == NatToString(i + 1)
    ensures NatToString(i + 1) in SeriesIdSet(n)
  {
    if i < n - 1 {
      SeriesIdsAt(n - 1, i);
    } else if n > 1 {
      SeriesIdsAt(n - 1, 0);
    }
  }

  lemma {:induction false} EventIndexSetRange(n: nat, k: int)
    ensures k in EventIndexSet(n) <==> 1 <= k <= n
  {
    if n > 0 {
      EventIndexSetRange(n - 1, k);
    }
  }

  lemma {:induction false} EventIndicesAt(n: nat, i: nat)
    requires i < n
    ensures |EventIndices(n)| == n
    ensures EventIndices(n)[i] == i + 1
  {
    if i < n - 1 {
      EventIndicesAt(n - 1, i);
    } else if n > 1 {
      EventIndicesAt(n - 1, 0);
    }
  }

  lemma SeriesIdIsDigits<V>(series: OMap<TokenSeriesId, V>, id: TokenSeriesId)
    requires SeriesKeysCanonical(series)
    requires id in series.entries
    ensures IsDigits(id)
  {
    SeriesIdSetDigits(|series.keys|, id);
  }

  /** The id `create_event` gives the next series is not taken, and storing a series
      under it appends the id and keeps the ids canonical. */
  lemma AppendNextSeries<V>(series: OMap<TokenSeriesId, V>, s: V)
    requires SeriesKeysCanonical(series)
    ensures NatToString(Size(series) + 1) !in series.entries
    ensures var series' := Insert(series, NatToString(Size(series) + 1), s);
      && series'.keys == series.keys + [NatToString(Size(series) + 1)]
      && SeriesKeysCanonical(series')
  {
    SeriesIdSetExcludes(Size(series), Size(series) + 1);
  }

  /** The index `create_event` gives the next event is not taken, and storing an event
      that records it there keeps the events canonical. */
  lemma AppendNextEvent(events: OMap<int, Event>, e: Event)
    requires EventsCanonical(events)
    requires e.index == Size(events) + 1
    ensures Size(events) + 1 !in events.entries
    ensures var events' := Insert(events, Size(events) + 1, e);
      && events'.keys == events.keys + [Size(events) + 1]
      && EventsCanonical(events')
  {
    EventIndexSetRange(Size(events), Size(events) + 1);
  }
}
