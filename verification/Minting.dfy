/** `mint_ticket` and `_nft_mint_series`: selling the next ticket of a series. */
module Minting {
  import opened Wrappers
  import opened Ints
  import opened Decimal
  import opened Strings
  import opened OrderedMap
  import opened TicketTypes
  import opened TokenIds
  import opened Fees

  /** What a sale hands back: the new ticket id, and the two transfers it schedules, the
      creator's share of the price and the treasury's fee. */
  datatype MintReceipt = MintReceipt(
    tokenId: TokenId,
    creator: AccountId,
    creatorAmount: nat,
    treasury: AccountId,
    treasuryAmount: nat)

  /** The title of ticket `ordinal` of series `id`: what `push_str_cleaner` makes of the
      series title (empty when absent) and the pieces delimiter, series id, delimiter and
      ordinal, which `PushStrFour` shows is their concatenation. */
  function TicketTitle(id: TokenSeriesId, s: TokenSeries, ordinal: nat): string {
    MightString(s.metadata.title) + TITLE_DELIMITER + id + TITLE_DELIMITER + NatToString(ordinal)
  }

  /** The metadata a ticket is stored with: the series template with the ticket's own
      title, issued at `now`, and no expiry, start or update time. */
  function TicketMetadata(id: TokenSeriesId, s: TokenSeries, ordinal: nat, now: U64): TokenMetadata {
    s.metadata.(title := Some(TicketTitle(id, s, ordinal)), issuedAt := Some(now),
                expiresAt := None, startsAt := None, updatedAt := None)
  }

  /** The ticket record: owned by the receiver, with the series creator approved under
      approval id 0, the next approval id 1, and the series' royalty table. */
  function TicketRecord(s: TokenSeries, receiver: AccountId): Token {
    Token(receiver, map[s.creatorId := 0], 1, s.royalty)
  }

  /** The series after selling ticket `ordinal`: the ticket joins its set, and the flag
      drops once the ordinal reaches the supply bound. */
  function SoldSeries(s: TokenSeries, tokenId: TokenId, ordinal: nat): TokenSeries {
    s.(tokens := s.tokens + {tokenId}, isMintable := if ordinal >= MaxCopies(s) then false else s.isMintable)
  }

  /** `_nft_mint_series`: the series must exist, be mintable and have supply left; the
      ticket gets ordinal `issued + 1`, and an id already registered aborts the call. */
  function MintSeries(c: Contract, id: TokenSeriesId, receiver: AccountId, now: U64)
    : (r: Result<(Contract, TokenId), Error>)
    ensures id !in c.series.entries ==> r == Err(SeriesNotFound)
    ensures id in c.series.entries && !c.series.entries[id].isMintable ==> r == Err(NotMintable)
    ensures (id in c.series.entries && c.series.entries[id].isMintable
             && |c.series.entries[id].tokens| >= MaxCopies(c.series.entries[id])) ==> r == Err(SupplyMaxed)
    ensures r.Ok? <==>
      && id in c.series.entries
      && c.series.entries[id].isMintable
      && |c.series.entries[id].tokens| < MaxCopies(c.series.entries[id])
      && TokenIdOf(id, |c.series.entries[id].tokens| + 1) !in c.tokensById
    ensures r.Err? ==> r.error in {SeriesNotFound, NotMintable, SupplyMaxed, TokenAlreadyExists}
  {
    if id !in c.series.entries then Err(SeriesNotFound)
    else
      var s := c.series.entries[id];
      if !s.isMintable then Err(NotMintable)
      else
        var issued := |s.tokens|;
        if issued >= MaxCopies(s) then Err(SupplyMaxed)
        else
          var ordinal := issued + 1;
          var tokenId := TokenIdOf(id, ordinal);
          if tokenId in c.tokensById then Err(TokenAlreadyExists)
          else
            Ok((c.(series := Insert(c.series, id, SoldSeries(s, tokenId, ordinal)),
                   tokensById := c.tokensById[tokenId := TicketRecord(s, receiver)],
                   tokenMetadataById := c.tokenMetadataById[tokenId := TicketMetadata(id, s, ordinal, now)]),
                tokenId))
  }

  /** `mint_ticket`: the series must exist and have a price the deposit covers; then the
      ticket is minted and the price is split between creator and treasury, where
      `price * 300` must fit in 128 bits. */
  function MintTicket(c: Contract, id: TokenSeriesId, receiver: AccountId, deposit: U128, now: U64)
    : (r: Result<(Contract, MintReceipt), Error>)
    ensures id !in c.series.entries ==> r == Err(TokenDoesNotExist)
    ensures id in c.series.entries && c.series.entries[id].price.None? ==> r == Err(SeriesNotPriced)
    ensures (id in c.series.entries && c.series.entries[id].price.Some?
             && deposit < c.series.entries[id].price.value) ==> r == Err(InsufficientDeposit)
    ensures r.Ok? <==>
      && id in c.series.entries
      && c.series.entries[id].price.Some?
      && deposit >= c.series.entries[id].price.value
      && MintSeries(c, id, receiver, now).Ok?
      && c.series.entries[id].price.value * TREASURY_FEE <= U128_MAX
    ensures r.Ok? ==>
      && r.value.0 == MintSeries(c, id, receiver, now).value.0
      && r.value.1.tokenId == MintSeries(c, id, receiver, now).value.1
      && r.value.1.creator == c.series.entries[id].creatorId
      && r.value.1.treasury == c.treasury
      && r.value.1.treasuryAmount == c.series.entries[id].price.value * TREASURY_FEE / BASIS_POINTS
      && r.value.1.creatorAmount + r.value.1.treasuryAmount == c.series.entries[id].price.value
  {
    if id !in c.series.entries then Err(TokenDoesNotExist)
    else
      var s := c.series.entries[id];
      if s.price.None? then Err(SeriesNotPriced)
      else
        var price := s.price.value;
        if deposit < price then Err(InsufficientDeposit)
        else
          match MintSeries(c, id, receiver, now)
          case Err(e) => Err(e)
          case Ok((c', tokenId)) =>
            if price * TREASURY_FEE > U128_MAX then Err(FeeOverflow)
            else
              var split := SplitPrice(price);
              Ok((c', MintReceipt(tokenId, s.creatorId, split.creator, c.treasury, split.treasury)))
  }
}
