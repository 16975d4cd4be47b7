# NEAR Future Tickets: the ticket registry, modelled in Dafny

The contract in `contract/src/lib.rs` sells event tickets as NFTs. An organizer calls
`create_event` with a list of ticket categories. For each category the contract creates
a *token series*: the category's ticket template, with a price, a supply bound (its
capacity) and a mintability flag. A buyer calls `mint_ticket` on a series and pays at
least its price. That mints the series' next ticket as a token with id
`"<series id> - <ordinal>"`. The price is split between the series creator and the
treasury, which takes a 3 % fee. Organizers can edit four fields of their event with
`update_event`. `get_event`, `get_events`, `get_event_tickets` and `get_events_supply`
read the registry.

The model keeps the contract state as an immutable `Contract` value: the events, the
series, the token records, the ticket metadata and the treasury account. Every entry
point is a pure function from the state and the call's arguments to a `Result`:

- `Ok` carries the new state and the return value.
- `Err` names the `require!`, `expect` or panic that aborts the call. NEAR rolls back
  every write of an aborted call, so an `Err` carries no state.

near-sdk's `UnorderedMap` is modelled as `OrderedMap.OMap`: a vector of keys in insertion
order next to a key-value map. Inserting a present key replaces its value; inserting a
new key appends it.

Integers keep their widths explicitly:

- `U8`, `U32`, `U64` and `U128` are subset types of `int`.
- `create_event` adds up capacities in a `u32`, and `mint_ticket` multiplies the price in
  a `u128`. Both are modelled as aborting on overflow (`CapacityOverflow`, `FeeOverflow`),
  which is what a build with `overflow-checks = true` does (see "Left out").
- `as usize` keeps the low 32 bits (`Ints.AsUsize`), since the contract runs on 32-bit
  WebAssembly.

The caller (`env::signer_account_id()`), the attached deposit and the block timestamp are
parameters of the entry points.

Modules:

- `Wrappers`, `Ints`, `Decimal`, `Strings`: `Option`/`Result`, the integer widths, decimal
  rendering of counters (`format!("{}", n)`), `might_string` and `push_str_cleaner`.
- `Fees`: the treasury fee and the price split of `mint_ticket`.
- `TicketTypes`, `OrderedMap`, `TokenIds`: the records of the contract, the ordered map,
  and ticket ids.
- `Registry`: the invariant `Valid` that every state reachable through the entry points
  modelled here keeps:
  - events sit at indices 1 … n, and series under ids "1" … "n";
  - each series has issued exactly its tickets 1 … k, with k within its supply bound;
  - each series' flag is consistent with its count;
  - the token registry holds exactly the issued tickets.
- `EventRegistry` / `EventRegistryProofs`: `create_event`, `update_event`, `get_event`.
- `Minting` / `MintingProofs`: `mint_ticket` and `_nft_mint_series`.
- `Readers`: `get_events`, `get_event_tickets`, `get_events_supply`.

A series created with capacity 0 stays flagged mintable (lib.rs:275, 348-352). Its first
sale aborts with "Series supply maxed", and the flag never changes. So the invariant says that
the flag is on exactly when supply is left *or nothing has been sold yet*
(`Registry.SeriesInvariant`, `MintingProofs.ZeroCopiesNeverSell`).

## Model

| member | source | states |
|---|---|---|
| Strings.MightString | contract/src/lib.rs:32-37 | the text of a present option, the empty string for an absent one |
| Strings.PushStr | contract/src/lib.rs:39-45 | the result is the main string followed by the pieces, in order |
| Strings.PushStrTwo | contract/src/lib.rs:261 | pushing two pieces gives main, then first piece, then second piece |
| Strings.PushStrFour | contract/src/lib.rs:358 | pushing four pieces gives main followed by the four pieces in order |
| Ints.AsUsize | contract/src/lib.rs:476 | `as usize` on wasm32: result below 2^32, equal to the input when it fits, and congruent to it modulo 2^32 |
| Decimal.NatToString | contract/src/lib.rs:255 | the decimal rendering is a non-empty digit string with a leading zero only for 0 |
| Decimal.ParseNatToString | contract/src/lib.rs:255 | reading the rendering back as a decimal gives the number |
| Decimal.NatToStringInjective | contract/src/lib.rs:255 | different registry sizes give different series ids |
| Fees.TreasuryFee | contract/src/lib.rs:327 | the fee is price * 300 / 10 000 rounded down (bounded both ways) and never exceeds the price |
| Fees.SplitPrice | contract/src/lib.rs:327-328 | creator share plus treasury fee is exactly the price, and the creator gets at least 97 % of it |
| TokenIds.TokenIdInjective | contract/src/lib.rs:355 | for digit-string series ids, the ticket id determines series id and ordinal |
| TokenIds.SpaceEndsSeriesId | contract/src/lib.rs:355 | in a ticket id the first space is exactly where the series id ends |
| TokenIds.IssuedIdsExclude | contract/src/lib.rs:355-356 | a ticket of another series, or with a later ordinal, is not among a series' first n tickets |
| TokenIds.IssuedIdsCount | contract/src/lib.rs:355-356 | a series' first n ticket ids are n distinct ids |
| Registry.FreshIsValid | contract/src/lib.rs:178-196 | the freshly initialized contract, with every collection empty, satisfies the invariant |
| Registry.SeriesIdSetDigits | contract/src/lib.rs:255 | every series id the contract hands out is a digit string |
| Registry.SeriesIdSetExcludes | contract/src/lib.rs:255 | the id of a later count is not among the ids handed out so far |
| Registry.SeriesIdsAt | contract/src/lib.rs:255 | the i-th id handed out is the rendering of i + 1 |
| Registry.EventIndexSetRange | contract/src/lib.rs:220 | the event indices handed out are exactly 1 … n |
| Registry.EventIndicesAt | contract/src/lib.rs:220 | the i-th event index handed out is i + 1 |
| Registry.SeriesIdIsDigits | contract/src/lib.rs:255 | every stored series id is a digit string |
| Registry.AppendNextSeries | contract/src/lib.rs:255-279 | the next series id is unused, and storing under it appends the id and keeps the ids canonical |
| Registry.AppendNextEvent | contract/src/lib.rs:308 | the next event index is unused, and storing the event there keeps the events canonical |
| EventRegistry.CreateEvent | contract/src/lib.rs:201-313 | aborts on a royalty table of 7 or more accounts; on success the event gets the next index, the caller as organizer, the given fields, and is stored there, with tokens and treasury untouched |
| EventRegistryProofs.CreateSeriesOutcome | contract/src/lib.rs:253-289 | the first k loop iterations succeed exactly when those categories have capacity, banner and price and their capacities sum within 32 bits; the total is that sum; failures are index or overflow errors |
| EventRegistryProofs.CreateEventOutcome | contract/src/lib.rs:241-289 | within the model (no storage-refund abort, overflow checks on), `create_event` succeeds exactly when the royalty table fits, every category has capacity, banner and price, and the total capacity fits in 32 bits; its only errors are those three |
| EventRegistryProofs.CreateSeriesStep | contract/src/lib.rs:253-289 | a successful iteration stores the category's series under the next id and appends its summary |
| EventRegistryProofs.CreateSeriesShape | contract/src/lib.rs:253-289 | after k iterations the registry is canonical, has k more series, and keeps the old ids first |
| EventRegistryProofs.CreateSeriesLast | contract/src/lib.rs:255-279 | the last iteration stores its series under id old count + k |
| EventRegistryProofs.CreateSeriesLater | contract/src/lib.rs:255-279 | a later iteration leaves an earlier category's series in place |
| EventRegistryProofs.CreateSeriesAt | contract/src/lib.rs:253-289 | category j's series sits under id old count + 1 + j |
| EventRegistryProofs.CreateSeriesTicketAt | contract/src/lib.rs:280-286 | the j-th summary is the summary of category j's series |
| EventRegistryProofs.CreateSeriesKeeps | contract/src/lib.rs:253-289 | series present before the loop keep their values |
| EventRegistryProofs.CreateSeriesNew | contract/src/lib.rs:255 | every id the loop adds is one of the next k ids |
| EventRegistryProofs.CreateSeriesKept | contract/src/lib.rs:253-289 | after the whole loop the old series are untouched |
| EventRegistryProofs.CreateSeriesNewKeys | contract/src/lib.rs:255 | after the loop the registry has one new series per category, and the new keys follow in id order |
| EventRegistryProofs.CreateSeriesAdded | contract/src/lib.rs:253-279 | after the loop, category j's series is stored under id old count + 1 + j |
| EventRegistryProofs.CreateSeriesSummaries | contract/src/lib.rs:280-286 | the summaries list, in category order, the new series under their ids |
| EventRegistryProofs.CreateSeriesFreshInvariant | contract/src/lib.rs:265-279 | each new series has no tickets and satisfies the series invariant |
| EventRegistryProofs.CreateSeriesValid | contract/src/lib.rs:253-289 | the loop keeps the series invariant and issues no ticket |
| EventRegistryProofs.CreateEventLoop | contract/src/lib.rs:253-308 | a successful `create_event` ran the whole loop and stored its series, summaries and total in the event |
| EventRegistryProofs.CreateEventSeries | contract/src/lib.rs:253-289 | after `create_event` the old series are untouched, the new ids follow in order, and category j's series is under id old count + 1 + j |
| EventRegistryProofs.NewSeriesFields | contract/src/lib.rs:256-279 | a new series has the title name + " - " + category, copies = capacity, media = banner, `{"confirmed":false}` as extra, the price, the caller as creator, the royalty table, no tickets and the flag on |
| EventRegistryProofs.CreateEventRecord | contract/src/lib.rs:292-308 | the event has the summed capacity and the summaries of exactly the new series; old events are untouched; the event count grows by one |
| EventRegistryProofs.CreateEventPreservesValid | contract/src/lib.rs:201-313 | a successful `create_event` keeps the registry invariant |
| EventRegistry.UpdateEvent | contract/src/lib.rs:492-501 | aborts on an unknown index or a signer who is not the organizer, and succeeds otherwise; changes only description, banner, status and date of that event, and nothing else in the state |
| EventRegistryProofs.UpdateEventPreservesValid | contract/src/lib.rs:492-501 | a successful `update_event` keeps the registry invariant |
| EventRegistry.GetEvent | contract/src/lib.rs:485-488 | returns the stored event exactly when the index is a key, and "Event Doesn't Exist" otherwise |
| Minting.MintSeries | contract/src/lib.rs:336-463 | aborts on an unknown series, a series not mintable, exhausted supply, or an already registered ticket id, and succeeds exactly otherwise |
| Minting.MintTicket | contract/src/lib.rs:316-334 | aborts on an unknown series, a series without price, or a short deposit; within the model (no storage-refund abort, overflow checks on) succeeds exactly when the mint does and price * 300 fits in 128 bits; then the treasury gets floor(price * 3 %), the creator the rest, and the state is the mint's |
| MintingProofs.MintSeriesEffect | contract/src/lib.rs:347-438 | a sale issues ticket count + 1; the ticket joins the series; the flag drops exactly at the supply bound; nothing else of the series or other series changes; the ticket record and metadata are registered |
| MintingProofs.TicketMetadataFields | contract/src/lib.rs:358-387 | the ticket's title is series title + " - " + series id + " - " + ordinal; issued at the block time; no expiry, start or update; other fields copied from the series |
| MintingProofs.NextTicketUnregistered | contract/src/lib.rs:433-436 | in a valid state the next ticket id of a series is not registered |
| MintingProofs.MintSeriesNoDuplicate | contract/src/lib.rs:433-436 | in a valid state "Token already exists" never fires, so the first three checks decide success |
| MintingProofs.MintSeriesGrowth | contract/src/lib.rs:347-357 | a sale grows the series' set by exactly one ticket, to its first count + 1 tickets |
| MintingProofs.MintSeriesKeepsInvariant | contract/src/lib.rs:347-357 | the sold series keeps its supply bound and flag consistent |
| MintingProofs.MintSeriesIssued | contract/src/lib.rs:355-357 | a sale adds exactly its ticket to the issued tickets |
| MintingProofs.MintSeriesSeriesValid | contract/src/lib.rs:347-357 | a sale keeps the series invariant |
| MintingProofs.MintSeriesPreservesValid | contract/src/lib.rs:336-464 | a successful `_nft_mint_series` keeps the registry invariant |
| MintingProofs.MintTicketPreservesValid | contract/src/lib.rs:316-334 | a successful `mint_ticket` keeps the registry invariant |
| MintingProofs.MintLastCopy | contract/src/lib.rs:351-352 | selling the last copy turns the flag off and the next sale aborts as not mintable |
| MintingProofs.ZeroCopiesNeverSell | contract/src/lib.rs:347-349 | a series of zero copies stays flagged mintable yet every sale aborts with "Series supply maxed" |
| MintingProofs.SuccessiveMintsDiffer | contract/src/lib.rs:355 | two successive sales issue different ticket ids |
| Readers.Page | contract/src/lib.rs:476-478 | skip-then-take yields the elements from `skip` on, min(take, remaining) of them |
| Readers.PageConcat | contract/src/lib.rs:476-478 | two consecutive pages concatenate to the page of the combined size |
| Readers.LookUpAgain | contract/src/lib.rs:480 | re-reading each event under its recorded index succeeds exactly when every recorded index is a key |
| Readers.GetEventsAsWritten | contract/src/lib.rs:467-482 | on success the page has as many events as the 32-bit truncated limit allows past the 32-bit truncated start, each re-read from the map |
| Readers.GetEvents | contract/src/lib.rs:467-482 | the same page with start and limit taken at full width |
| Readers.EventsAligned | contract/src/lib.rs:470 | in a valid state the value vector lists the events in index order, each stored under its own index |
| Readers.LookUpAgainStored | contract/src/lib.rs:480 | re-reading events stored under their own index returns them unchanged |
| Readers.GetEventsIsPage | contract/src/lib.rs:467-482 | in a valid state `get_events` never aborts and returns the page of stored events |
| Readers.GetEventsListsIndices | contract/src/lib.rs:467-482 | the page lists the events with indices from_index + 1, from_index + 2, … |
| Readers.GetEventsConsecutive | contract/src/lib.rs:467-482 | consecutive pages concatenate to the larger page |
| Readers.GetEventsAsWrittenTruncates | contract/src/lib.rs:472-478 | `get_events` as written is the intended reader applied to the start and limit reduced modulo 2^32 |
| Readers.GetEventsAsWrittenNeverAborts | contract/src/lib.rs:467-482 | in a valid state `get_events` as written never aborts and lists the events with indices truncated start + 1, + 2, … |
| Readers.Summaries | contract/src/lib.rs:517-527 | one summary per series, in insertion order, with the series' id, metadata, creator, flag and price |
| Readers.GetEventTicketsAsWritten | contract/src/lib.rs:504-529 | "Out of bounds" when the start is not below the series count; "Cannot provide limit of 0" when the truncated limit is 0; otherwise min(truncated limit, count − truncated start) summaries, entry i the full summary of the series at position truncated start + i |
| Readers.GetEventTickets | contract/src/lib.rs:504-529 | the same checks and page with the limit taken at full width: min(limit, remaining) summaries from the start |
| Readers.SeriesAligned | contract/src/lib.rs:517-519 | in a valid state the key vector lists series "1", "2", … in order |
| Readers.GetEventTicketsListsSeries | contract/src/lib.rs:504-529 | in a valid state page entry i is the summary of series from_index + 1 + i |
| Readers.GetEventTicketsAsWrittenAgrees | contract/src/lib.rs:509-519 | when start and limit fit in 32 bits, `get_event_tickets` as written returns exactly what the intended reader returns |
| Readers.GetEventsSupply | contract/src/lib.rs:532-534 | in a valid state the supply n is such that the events are stored exactly under indices 1 … n |
| Readers.SupplyCountsEvents | contract/src/lib.rs:532-534 | in a valid state an index names an event exactly when it lies between 1 and the supply |
| Readers.GetEventsStartWraps | contract/src/lib.rs:476 | from_index = 2^32 wraps to 0: the result is the page from index 0 (events 1, 2, …), min(50, count) of them, where the intended page is empty whenever there are at most 2^32 events |
| Readers.GetEventsLimitWraps | contract/src/lib.rs:478 | limit = 2^32 wraps to 0 and yields no events, where the intended page holds them |
| Readers.GetEventTicketsLimitWraps | contract/src/lib.rs:514-515 | limit = 2^32 wraps to 0 and aborts with "Cannot provide limit of 0", where the intended page lists the series |

## Left out

- Storage accounting: `refund_deposit` and the storage-usage bookkeeping around it. Its
  code lives in `internal.rs`, which is not part of this model. The deposit only enters
  the model as the `>= price` check.
- The `Promise` transfers of `mint_ticket`. They are asynchronous, so the model returns
  the two amounts and their recipients instead (`Minting.MintReceipt`).
- Log output (`env::log_str` and the NEP-171 mint log), which does not change the state.
- `_nft_mint_series` also writes the standard-library `NonFungibleToken` state:
  `owner_by_id`, its own `token_metadata_by_id` and `tokens_per_owner`. It calls
  `internal_add_token_to_owner` and computes the storage of the creator's approval. These
  are library or `internal.rs` code that this model does not include. The model keeps the
  contract's own `tokens_by_id` and `token_metadata_by_id`, which carry the same owner and
  metadata.
- The initializers `new_default_meta` / `new` and the contract metadata.
  `TicketTypes.Fresh` stands for the state right after `new`.
- The `u64` additions `self.events.len() + 1` (lib.rs:220) and
  `self.token_series_by_id.len() + 1` (lib.rs:255) are unbounded in the model. Overflowing
  them needs 2^64 − 1 events or series. The `i128` event index is `i128::from` of that
  `u64` and cannot overflow.
- The modules `mint`, `nft_core`, `approval`, `royalty` and `enumeration` (lib.rs:21-28)
  are not part of this model. If one of their entry points writes `tokens_by_id`, states
  outside `Valid` become reachable. In such a state a series whose next ticket id is
  already registered aborts every sale with "Token already exists". So
  `MintSeriesNoDuplicate`'s "never fires" depends on those modules not writing
  `tokens_by_id`.
- The block timestamp is stored as a number. The standard-library metadata's
  string copy of it is not modelled.
- `GetEventsAsWritten`, `GetEvents`: each contract only states the page when it is
  returned, through `LookUpAgain`. That they never abort in valid states is stated by
  `GetEventsAsWrittenNeverAborts` and `GetEventsIsPage`.
- `CreateEventOutcome`, `MintTicket`: their "succeeds exactly when" is about the model,
  not the deployed contract. `refund_deposit` runs on the success path of `create_event`
  (lib.rs:310) and `mint_ticket` (lib.rs:332). Its code is in `internal.rs`, which is not
  part of this model, so whatever it may abort on (such as a deposit too small for the
  storage used) is not an error of the model.
- `CapacityOverflow` and `FeeOverflow` assume the contract is built with
  `overflow-checks = true`. `Cargo.toml` is not part of this model. Without that setting,
  line 259 wraps and the event records the total capacity modulo 2^32, and line 327 wraps
  the fee computation modulo 2^128.
- The readers require `OrderedMap.Aligned`: every key of the key vector has a value.
  near-sdk's map keeps a value vector parallel to its key vector, so every state the
  contract can reach satisfies it.

## Findings

| source | as written | input that shows it | evidently intended | confidence | as-written member | corrected member |
|---|---|---|---|---|---|---|
| contract/src/lib.rs:476 | `.skip(start as usize)` truncates the 128-bit start to 32 bits | `from_index` = 2^32 with between 1 and 2^32 events | a start past the last event gives an empty page | not executed | Readers.GetEventsStartWraps | Readers.GetEventsIsPage |
| contract/src/lib.rs:478 | `.take(limit.unwrap_or(50) as usize)` truncates the 64-bit limit to 32 bits | `limit` = 2^32 with at least one event | the page holds up to `limit` events | not executed | Readers.GetEventsLimitWraps | Readers.GetEventsIsPage |
| contract/src/lib.rs:514 | the `as usize` in `limit.map` truncates the 64-bit limit to 32 bits before the zero check | `limit` = 2^32 with at least one series | a non-zero limit is accepted and bounds the page | not executed | Readers.GetEventTicketsLimitWraps | Readers.GetEventTicketsListsSeries |
