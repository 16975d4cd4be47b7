/** The records of the ticketing contract and its whole persistent state. */
module TicketTypes {
  import opened Wrappers
  import opened Ints
  import opened OrderedMap

  type AccountId = string
  type TokenSeriesId = string
  type TokenId = string

  /** The contract's `TokenMetadata` record; the two hash fields are opaque bytes. */
  datatype TokenMetadata = TokenMetadata(
    title: Option<string>,
    description: Option<string>,
    media: Option<string>,
    mediaHash: Option<seq<U8>>,
    copies: Option<U64>,
    issuedAt: Option<U64>,
    expiresAt: Option<U64>,
    startsAt: Option<U64>,
    updatedAt: Option<U64>,
    extra: Option<string>,
    reference: Option<string>,
    referenceHash: Option<seq<U8>>)

  /** One ticket category: its metadata template, the set of ticket ids issued from it,
      the mintability flag, the royalty table copied into every ticket, and its price. */
  datatype TokenSeries = TokenSeries(
    metadata: TokenMetadata,
    creatorId: AccountId,
    tokens: set<TokenId>,
    isMintable: bool,
    royalty: map<AccountId, U32>,
    price: Option<U128>)

  /** The public summary of a series; an event keeps these as a snapshot taken when it
      was created. */
  datatype TokenSeriesJson = TokenSeriesJson(
    tokenSeriesId: TokenSeriesId,
    metadata: TokenMetadata,
    creatorId: AccountId,
    isMintable: bool,
    price: Option<U128>)

  datatype Event = Event(
    name: string,
    description: string,
    modality: U8,
    capacity: U32,
    date: string,
    time: string,
    status: U8,
    index: int,
    banner: string,
    organizer: AccountId,
    ticketType: seq<string>,
    tickets: seq<TokenSeriesJson>,
    location: string)

  /** A minted ticket as the contract's own `tokens_by_id` stores it. */
  datatype Token = Token(
    ownerId: AccountId,
    approvedAccountIds: map<AccountId, U64>,
    nextApprovalId: U64,
    royalty: map<AccountId, U32>)

  /** The persistent state the entry points below read and write. */
  datatype Contract = Contract(
    events: OMap<int, Event>,
    series: OMap<TokenSeriesId, TokenSeries>,
    tokensById: map<TokenId, Token>,
    tokenMetadataById: map<TokenId, TokenMetadata>,
    treasury: AccountId)

  /** Why a call aborts; each is a panic or a failed `require!` of the source. */
  datatype Error =
    | TooManyRoyaltyAccounts
    | IndexOutOfRange
    | CapacityOverflow
    | TokenDoesNotExist
    | SeriesNotPriced
    | InsufficientDeposit
    | SeriesNotFound
    | NotMintable
    | SupplyMaxed
    | TokenAlreadyExists
    | FeeOverflow
    | EventNotFound
    | Unauthorized
    | MissingEvent
    | OutOfBounds
    | ZeroLimit

  /** The summary of series `id`, as `get_event_tickets` and `create_event` build it. */
  function Summary(id: TokenSeriesId, s: TokenSeries): TokenSeriesJson {
    TokenSeriesJson(id, s.metadata, s.creatorId, s.isMintable, s.price)
  }

  /** The number of tickets a series may issue: `copies`, or `u64::MAX` when absent. */
  function MaxCopies(s: TokenSeries): nat {
    s.metadata.copies.GetOr(U64_MAX)
  }

  /** A freshly deployed contract: nothing created yet. */
  function Fresh(treasury: AccountId): Contract {
    Contract(Empty(), Empty(), map[], map[], treasury)
  }
}
