/** What a sale guarantees: exactly what it changes, that it never meets an id already
    taken in a valid state, that it keeps the registry invariant, and how a series sells
    out. */
module MintingProofs {
  import opened Wrappers
  import opened Ints
  import opened Decimal
  import opened Strings
  import opened OrderedMap
  import opened TicketTypes
  import opened TokenIds
  import opened Registry
  import opened Minting

  /** A successful `_nft_mint_series` issues ticket `issued + 1` of the series: the ticket
      joins the series' set, the flag drops exactly when that ticket reaches the supply
      bound, nothing else of the series changes, no other series changes, and the ticket
      is registered with its record and metadata. */
  lemma MintSeriesEffect(c: Contract, id: TokenSeriesId, receiver: AccountId, now: U64, c': Contract, t: TokenId)
    requires MintSeries(c, id, receiver, now) == Ok((c', t))
    ensures id in c.series.entries && id in c'.series.entries
    ensures var s := c.series.entries[id]; var s' := c'.series.entries[id];
      && t == TokenIdOf(id, |s.tokens| + 1)
      && s'.tokens == s.tokens + {t}
      && (s'.isMintable <==> |s.tokens| + 1 < MaxCopies(s))
      && s'.(tokens := s.tokens, isMintable := s.isMintable) == s
      && c'.tokensById == c.tokensById[t := Token(receiver, map[s.creatorId := 0], 1, s.royalty)]
      && c'.tokenMetadataById == c.tokenMetadataById[t := TicketMetadata(id, s, |s.tokens| + 1, now)]
    ensures c'.series.keys == c.series.keys && c'.series.entries.Keys == c.series.entries.Keys
    ensures forall other :: other in c.series.entries && other != id ==> c'.series.entries[other] == c.series.entries[other]
    ensures c'.events == c.events && c'.treasury == c.treasury
  {
    var s := c.series.entries[id];
    assert c'.series == Insert(c.series, id, SoldSeries(s, t, |s.tokens| + 1));
  }

  /** The metadata of ticket `ordinal`: titled by `push_str_cleaner` from the series title,
      the delimiter, the series id, the delimiter and the ordinal; issued at `now`; no
      expiry, start or update time; every other field copied from the series. */
  lemma TicketMetadataFields(id: TokenSeriesId, s: TokenSeries, ordinal: nat, now: U64)
    ensures var m := TicketMetadata(id, s, ordinal, now);
      && m.title == Some(PushStr(MightString(s.metadata.title), [TITLE_DELIMITER, id, TITLE_DELIMITER, NatToString(ordinal)]))
      && m.issuedAt == Some(now)
      && m.expiresAt.None? && m.startsAt.None? && m.updatedAt.None?
      && m.description == s.metadata.description && m.media == s.metadata.media
      && m.mediaHash == s.metadata.mediaHash && m.copies == s.metadata.copies
      && m.extra == s.metadata.extra && m.reference == s.metadata.reference
      && m.referenceHash == s.metadata.referenceHash
  {
    PushStrFour(MightString(s.metadata.title), TITLE_DELIMITER, id, TITLE_DELIMITER, NatToString(ordinal));
  }

  /** In a valid state the id of a series' next ticket is not registered yet. */
  lemma NextTicketUnregistered(c: Contract, id: TokenSeriesId)
    requires Valid(c)
    requires id in c.series.entries
    ensures TokenIdOf(id, |c.series.entries[id].tokens| + 1) !in c.tokensById
  {
    var t := TokenIdOf(id, |c.series.entries[id].tokens| + 1);
    SeriesIdIsDigits(c.series, id);
    forall other | other in c.series.entries
      ensures t !in c.series.entries[other].tokens
    {
      SeriesIdIsDigits(c.series, other);
      IssuedIdsExclude(other, |c.series.entries[other].tokens|, id, |c.series.entries[id].tokens| + 1);
    }
  }

  /** So in a valid state a sale never aborts with "Token already exists". */
  lemma MintSeriesNoDuplicate(c: Contract, id: TokenSeriesId, receiver: AccountId, now: U64)
    requires Valid(c)
    ensures MintSeries(c, id, receiver, now) != Err(TokenAlreadyExists)
    ensures id in c.series.entries && c.series.entries[id].isMintable
            && |c.series.entries[id].tokens| < MaxCopies(c.series.entries[id])
            ==> MintSeries(c, id, receiver, now).Ok?
  {
    if id in c.series.entries {
      NextTicketUnregistered(c, id);
    }
  }

  /** In a valid state a sale grows the series' ticket set by exactly one: afterwards it
      holds tickets 1 … issued + 1. */
  lemma MintSeriesGrowth(c: Contract, id: TokenSeriesId, receiver: AccountId, now: U64, c': Contract, t: TokenId)
    requires SeriesValid(c.series)
    requires MintSeries(c, id, receiver, now) == Ok((c', t))
    ensures id in c.series.entries && id in c'.series.entries
    ensures |c'.series.entries[id].tokens| == |c.series.entries[id].tokens| + 1
    ensures c'.series.entries[id].tokens == IssuedIds(id, |c.series.entries[id].tokens| + 1)
  {
    MintSeriesEffect(c, id, receiver, now, c', t);
    var n := |c.series.entries[id].tokens|;
    SeriesIdIsDigits(c.series, id);
    IssuedIdsExclude(id, n, id, n + 1);
    IssuedIdsCount(id, n + 1);
  }

  /** The sold series keeps its supply bound and flag consistent. */
  lemma MintSeriesKeepsInvariant(c: Contract, id: TokenSeriesId, receiver: AccountId, now: U64, c': Contract, t: TokenId)
    requires SeriesValid(c.series)
    requires MintSeries(c, id, receiver, now) == Ok((c', t))
    ensures id in c'.series.entries && SeriesInvariant(id, c'.series.entries[id])
  {
    MintSeriesEffect(c, id, receiver, now, c', t);
    MintSeriesGrowth(c, id, receiver, now, c', t);
  }

  /** A sale adds exactly its ticket to the issued tickets. */
  lemma MintSeriesIssued(c: Contract, id: TokenSeriesId, receiver: AccountId, now: U64, c': Contract, t: TokenId)
    requires MintSeries(c, id, receiver, now) == Ok((c', t))
    ensures forall u :: IssuedBy(c'.series, u) <==> IssuedBy(c.series, u) || u == t
  {
    MintSeriesEffect(c, id, receiver, now, c', t);
    forall u
      ensures IssuedBy(c'.series, u) <==> IssuedBy(c.series, u) || u == t
    {
      if IssuedBy(c'.series, u) {
        var other :| other in c'.series.entries && u in c'.series.entries[other].tokens;
        assert other in c.series.entries;
      }
      if IssuedBy(c.series, u) {
        var other :| other in c.series.entries && u in c.series.entries[other].tokens;
        assert u in c'.series.entries[other].tokens;
      }
      if u == t {
        assert u in c'.series.entries[id].tokens;
      }
    }
  }

  /** A sale keeps the series registry invariant. */
  lemma MintSeriesSeriesValid(c: Contract, id: TokenSeriesId, receiver: AccountId, now: U64, c': Contract, t: TokenId)
    requires SeriesValid(c.series)
    requires MintSeries(c, id, receiver, now) == Ok((c', t))
    ensures SeriesValid(c'.series)
  {
    MintSeriesEffect(c, id, receiver, now, c', t);
    MintSeriesKeepsInvariant(c, id, receiver, now, c', t);
    assert SeriesKeysCanonical(c'.series);
  }

  /** A successful sale keeps the registry invariant. */
  lemma MintSeriesPreservesValid(c: Contract, id: TokenSeriesId, receiver: AccountId, now: U64)
    requires Valid(c)
    requires MintSeries(c, id, receiver, now).Ok?
    ensures Valid(MintSeries(c, id, receiver, now).value.0)
  {
    var (c', t) := MintSeries(c, id, receiver, now).value;
    MintSeriesEffect(c, id, receiver, now, c', t);
    MintSeriesSeriesValid(c, id, receiver, now, c', t);
    MintSeriesIssued(c, id, receiver, now, c', t);
  }

  /** A successful `mint_ticket` keeps the registry invariant. */
  lemma MintTicketPreservesValid(c: Contract, id: TokenSeriesId, receiver: AccountId, deposit: U128, now: U64)
    requires Valid(c)
    requires MintTicket(c, id, receiver, deposit, now).Ok?
    ensures Valid(MintTicket(c, id, receiver, deposit, now).value.0)
  {
    MintSeriesPreservesValid(c, id, receiver, now);
  }

  /** Selling the last copy switches the series off: the next sale aborts as not mintable. */
  lemma MintLastCopy(c: Contract, id: TokenSeriesId, receiver: AccountId, now: U64,
                     receiver2: AccountId, now2: U64)
    requires Valid(c)
    requires MintSeries(c, id, receiver, now).Ok?
    requires |c.series.entries[id].tokens| + 1 == MaxCopies(c.series.entries[id])
    ensures var c' := MintSeries(c, id, receiver, now).value.0;
      && !c'.series.entries[id].isMintable
      && MintSeries(c', id, receiver2, now2) == Err(NotMintable)
  {
    var (c', t) := MintSeries(c, id, receiver, now).value;
    MintSeriesEffect(c, id, receiver, now, c', t);
  }

  /** A mintable series created with zero copies can never sell: every attempt aborts
      with "Series supply maxed" and the flag stays on. */
  lemma ZeroCopiesNeverSell(c: Contract, id: TokenSeriesId, receiver: AccountId, now: U64)
    requires id in c.series.entries && c.series.entries[id].isMintable
    requires c.series.entries[id].metadata.copies == Some(0)
    ensures MintSeries(c, id, receiver, now) == Err(SupplyMaxed)
  {
  }

  /** Two successive sales issue different tickets. */
  lemma SuccessiveMintsDiffer(c: Contract, id1: TokenSeriesId, id2: TokenSeriesId, receiver1: AccountId,
                              receiver2: AccountId, now1: U64, now2: U64)
    requires MintSeries(c, id1, receiver1, now1).Ok?
    requires MintSeries(MintSeries(c, id1, receiver1, now1).value.0, id2, receiver2, now2).Ok?
    ensures MintSeries(c, id1, receiver1, now1).value.1
         != MintSeries(MintSeries(c, id1, receiver1, now1).value.0, id2, receiver2, now2).value.1
  {
    var (c', t) := MintSeries(c, id1, receiver1, now1).value;
    MintSeriesEffect(c, id1, receiver1, now1, c', t);
  }
}
