/** `create_event`, `update_event` and `get_event`: the event registry and the batch of
    ticket series an event creates. */
module EventRegistry {
  import opened Wrappers
  import opened Ints
  import opened Decimal
  import opened Strings
  import opened OrderedMap
  import opened TicketTypes
  import opened TokenIds
  import opened Registry

  /** `MAX_ACCOUNTS_ROYALTY`: the royalty table must have fewer accounts than this. */
  const MAX_ACCOUNTS_ROYALTY: nat := 7

  /** The `extra` field every new series carries: `{"confirmed": false}` as JSON text. */
  const EXTRA_UNCONFIRMED: string := "{\"confirmed\":false}"

  /** The arguments of `create_event`; the four category sequences are meant to be
      parallel, one entry per ticket category. */
  datatype CreateEventArgs = CreateEventArgs(
    name: string,
    description: string,
    modality: U8,
    capacity: seq<U32>,
    date: string,
    time: string,
    status: U8,
    banner: string,
    ticketType: seq<string>,
    ticketBanners: seq<string>,
    price: seq<U128>,
    location: string,
    perpetualRoyalties: Option<map<AccountId, U32>>)

  /** The royalty table, when given, has at most six accounts. */
  predicate RoyaltyFits(a: CreateEventArgs) {
    a.perpetualRoyalties.None? || |a.perpetualRoyalties.value| < MAX_ACCOUNTS_ROYALTY
  }

  /** Every ticket category has a capacity, a banner and a price. */
  predicate CategoriesFit(a: CreateEventArgs) {
    |a.capacity| >= |a.ticketType| && |a.ticketBanners| >= |a.ticketType| && |a.price| >= |a.ticketType|
  }

  /** The sum of the first `k` capacities. */
  function CapacitySum(capacity: seq<U32>, k: nat): nat
    requires k <= |capacity|
  {
    if k == 0 then 0 else CapacitySum(capacity, k - 1) + capacity[k - 1]
  }

  /** The total capacity of the event's categories. */
  function TotalCapacity(a: CreateEventArgs): nat
    requires CategoriesFit(a)
  {
    CapacitySum(a.capacity, |a.ticketType|)
  }

  /** The metadata template of category `i`: every field absent except these four. */
  function SeriesMetadata(title: string, media: string, copies: U32): TokenMetadata {
    TokenMetadata(Some(title), None, Some(media), None, Some(copies), None, None, None, None,
                  Some(EXTRA_UNCONFIRMED), None, None)
  }

  /** The series the loop creates for category `i`. Its title is what `push_str_cleaner`
      makes of the event name and the pieces `TITLE_DELIMITER` and the category name, which
      `PushStrTwo` shows is their concatenation. */
  function NewSeries(caller: AccountId, a: CreateEventArgs, royalty: map<AccountId, U32>, i: nat): TokenSeries
    requires i < |a.ticketType| && i < |a.capacity| && i < |a.ticketBanners| && i < |a.price|
  {
    var title := a.name + TITLE_DELIMITER + a.ticketType[i];
    TokenSeries(SeriesMetadata(title, a.ticketBanners[i], a.capacity[i]), caller, {}, true, royalty, Some(a.price[i]))
  }

  /** What the category loop has built so far: the series registry, the running total
      capacity and the summaries of the series created. */
  datatype Progress = Progress(series: OMap<TokenSeriesId, TokenSeries>, total: U32, tickets: seq<TokenSeriesJson>)

  /** One iteration of the category loop, for category `i`: take the next series id from
      the registry's current size, read the price, add the capacity to the 32-bit running
      total (aborting on overflow), read the banner, and store the series and its summary.
      Reading past the end of a sequence aborts. */
  function StoreCategory(p: Progress, caller: AccountId, a: CreateEventArgs, royalty: map<AccountId, U32>, i: nat)
    : Result<Progress, Error>
    requires i < |a.ticketType|
  {
    var id := NatToString(Size(p.series) + 1);
    if i >= |a.price| || i >= |a.capacity| then Err(IndexOutOfRange)
    else if p.total + a.capacity[i] > U32_MAX then Err(CapacityOverflow)
    else if i >= |a.ticketBanners| then Err(IndexOutOfRange)
    else
      var s := NewSeries(caller, a, royalty, i);
      Ok(Progress(Insert(p.series, id, s), p.total + a.capacity[i], p.tickets + [Summary(id, s)]))
  }

  /** The category loop after its first `k` iterations, starting from `series0`. */
  function CreateSeries(series0: OMap<TokenSeriesId, TokenSeries>, caller: AccountId, a: CreateEventArgs,
                        royalty: map<AccountId, U32>, k: nat): Result<Progress, Error>
    requires k <= |a.ticketType|
  {
    if k == 0 then Ok(Progress(series0, 0, []))
    else
      match CreateSeries(series0, caller, a, royalty, k - 1)
      case Err(e) => Err(e)
      case Ok(p) => StoreCategory(p, caller, a, royalty, k - 1)
  }

  /** `create_event`: checks the royalty table, creates one series per category, and
      stores the event at the next index with the caller as organizer. */
  function CreateEvent(c: Contract, caller: AccountId, a: CreateEventArgs): (r: Result<(Contract, Event), Error>)
    ensures !RoyaltyFits(a) ==> r == Err(TooManyRoyaltyAccounts)
    ensures r.Ok? ==> var (c', e) := r.value;
      && e.index == Size(c.events) + 1
      && e.organizer == caller
      && e.name == a.name && e.description == a.description && e.modality == a.modality
      && e.date == a.date && e.time == a.time && e.status == a.status && e.banner == a.banner
      && e.ticketType == a.ticketType && e.location == a.location
      && Get(c'.events, e.index) == Some(e)
      && c'.tokensById == c.tokensById && c'.tokenMetadataById == c.tokenMetadataById
      && c'.treasury == c.treasury
  {
    var index := Size(c.events) + 1;
    if !RoyaltyFits(a) then Err(TooManyRoyaltyAccounts)
    else
      var royalty := a.perpetualRoyalties.GetOr(map[]);
      match CreateSeries(c.series, caller, a, royalty, |a.ticketType|)
      case Err(e) => Err(e)
      case Ok(p) =>
        var event := Event(a.name, a.description, a.modality, p.total, a.date, a.time, a.status, index,
                           a.banner, caller, a.ticketType, p.tickets, a.location);
        Ok((c.(series := p.series, events := Insert(c.events, index, event)), event))
  }

  /** `update_event`: only the organizer may change an event, and only its description,
      banner, status and date. */
  function UpdateEvent(c: Contract, signer: AccountId, index: int, description: string, banner: string,
                       status: U8, date: string): (r: Result<(Contract, Event), Error>)
    ensures index !in c.events.entries ==> r == Err(EventNotFound)
    ensures index in c.events.entries && c.events.entries[index].organizer != signer ==> r == Err(Unauthorized)
    ensures r.Ok? <==> index in c.events.entries && c.events.entries[index].organizer == signer
    ensures r.Ok? ==> var (c', e) := r.value; var old_ := c.events.entries[index];
      && e.description == description && e.banner == banner && e.status == status && e.date == date
      && e.(description := old_.description, banner := old_.banner, status := old_.status, date := old_.date) == old_
      && c'.events.keys == c.events.keys
      && c'.events.entries.Keys == c.events.entries.Keys
      && c'.events.entries[index] == e
      && (forall k :: k in c.events.entries && k != index ==> c'.events.entries[k] == c.events.entries[k])
      && c'.series == c.series && c'.tokensById == c.tokensById
      && c'.tokenMetadataById == c.tokenMetadataById && c'.treasury == c.treasury
  {
    if index !in c.events.entries then Err(EventNotFound)
    else
      var event := c.events.entries[index];
      if event.organizer != signer then Err(Unauthorized)
      else
        var event' := event.(description := description, banner := banner, status := status, date := date);
        Ok((c.(events := Insert(c.events, index, event')), event'))
  }

  /** `get_event`. */
  function GetEvent(c: Contract, index: int): (r: Result<Event, Error>)
    ensures r.Ok? <==> index in c.events.entries
    ensures r.Ok? ==> r.value == c.events.entries[index]
    ensures r.Err? ==> r.error == EventNotFound
  {
    match Get(c.events, index)
    case Some(e) => Ok(e)
    case None => Err(EventNotFound)
  }
}
