# Store activity, Steam player cache and rewards — a Dafny model

This project models the core of a CakePHP game-item store. It covers four
pieces.

- **The activity feed** (`app/Model/Activity.php`).
  - The `byItem` and `byUser` find types each build seven selections, each
    with its own joins and conditions. `byItem` selects orders, liquidations,
    gifts, rewards, reviews, shipments and giveaway claims (no PayPal orders).
    `byUser` selects orders, liquidations, PayPal orders, gifts, rewards,
    reviews and giveaway claims (no shipments).
  - The selections are glued with `union all` and ordered by `activity_id`
    descending. An optional `limit offset,count` cuts one page.
  - `_findCount` counts the rows of that raw query.
  - `getRecent` groups a page by model and fetches each model's full record
    with its detail lines. It sorts the records by date, descending, then
    "squashes" the detail lines into an `item_id => quantity` map. Along the
    way it adds a total for orders and liquidations, and injects a reward's
    credit as item 0.
  - The three page-query builders.
- **The Steam player cache** (`app/Model/SteamPlayerCache.php`).
  - This is a class over the cache table, keyed by steamid.
  - It has a memoised expiry time, and a batching loop that calls the Steam
    API 100 ids at a time and saves every returned player.
  - It also has the valid, expired and precached queries and counts, the
    refresh-all, refresh-expired and prune operations, and `clearAll`.
- **The player lookup** (`app/Model/SteamPlayer.php`).
  - `getPlayers` applies the cache-or-refetch policy: a full cache hit is
    served from the cache; otherwise the API is asked; an empty answer falls
    back to whatever the cache had.
  - `getPlayer` is the single-player lookup.
- **The rewards controller** (`app/Controller/RewardsController.php`).
  - `accept` merges a pending reward's lines into the recipient's items and
    marks the recipient row accepted, so each pending row is merged once.
  - `package` splits the recipients field, filters and totals the detail
    lines, and rejects an empty recipient field or an empty set of lines.
  - `activity` flattens each reward's details and recipients.

The Dafny modules follow that structure:

- `Wrappers`: Option and Result.
- `Tables`: the row types.
- `DetailLines`: squash and line totals.
- `Ordering`: the descending sort, `limit offset,count` and pages.
- `ActivityQuery`: the selections, the union, find, count and the builders.
- `ActivityRecent`: `getRecent`.
- `SteamCache`: the `SteamPlayerCache` class.
- `SteamPlayers`: `getPlayers` and `getPlayer`.
- `Rewards`: the controller actions, with `accept` as a method of the
  `RewardStore` class.

The Steam API, the clock and the account-name resolver are parameters of the
operations that use them.

Points where the code behaves differently from what a reader of its comments
and names might expect:

- **Duplicate item ids.** Squashing detail lines with `Hash::combine` keeps
  the *last* quantity for a duplicated item id; nothing is summed. See
  `DetailLines.SquashLastWins`.
- **Reward credit.** The credit is written as item 0 of every reward,
  whether or not it is zero. See `ActivityRecent.NormalizeSpec`.
- **Count.** `_findCount` counts the raw query *including* any `limit`
  clause. The page total only equals the size of the union when no limit is
  given. See `ActivityQuery.CountIsUnionSize`.
- **Empty recipients.** `package` reports "no recipients" only when PHP's
  `empty()` holds for the field, that is for `""` and `"0"`. A field of
  blanks splits into pieces and is not rejected.
- **Expiry boundary.** `getValidPlayers` keeps rows cached strictly *after*
  the expiry time. `countValidPlayers` counts rows cached *at or after* it,
  and the expired queries use *strictly before*. A row cached exactly at the
  expiry time is therefore counted as valid but never returned. See
  `SteamCache.BoundaryRowIsCountedButNotReturned`.

## Model

| member | source | states |
|---|---|---|
| DetailLines.DetailTotal | app/Model/Activity.php:507-513 | the running sum of `price * quantity` over an order's lines equals the line total |
| DetailLines.LineTotalPermutation | app/Model/Activity.php:522-526 | the total of a record's lines is the same whatever order the lines were fetched in |
| DetailLines.SquashKeys | app/Model/Activity.php:515-518 | the squashed map has exactly the item ids that occur in the lines |
| DetailLines.SquashLastWins | app/Model/Activity.php:537-540 | each item maps to the quantity of its last line (`Hash::combine` overwrites, it does not sum) |
| Ordering.SortDescSpec | app/Model/Activity.php:500 | the descending sort is a permutation of its input and is ordered by the key, largest first |
| Ordering.Window | app/Model/Activity.php:205-210 | `limit offset,count` yields `min(count, n - offset)` rows (none past the end), row `i` being input row `offset + i` |
| Ordering.Paginate | app/Model/Activity.php:337-342 | without a limit every row is returned, and the offset is ignored; with one, the window at the offset (default 0) |
| Ordering.PagesArePrefix | app/Model/Activity.php:205-210 | the first `n` pages of size `size`, concatenated, are the first `n*size` rows, or all of them when there are fewer |
| Ordering.PagesCoverAll | app/Model/Activity.php:205-210 | once `n*size` reaches the row count, the pages together are exactly the rows |
| ActivityQuery.Select | app/Model/Activity.php:65-83 | a joined selection yields one row per matching join, tagged with its model; a row is present iff its source row has a match |
| ActivityQuery.UserUnionMembership | app/Model/Activity.php:245-352 | a row is in the user union iff it is an order, liquidation, PayPal order or claim of the user; a gift they sent (non-anonymous unless allowed) or received; a reward they received; or a review of a rating they wrote. Shipments never are |
| ActivityQuery.UserGiftMembership | app/Model/Activity.php:278-293 | a gift is selected iff the user received it, or sent it and it is not anonymous or anonymous senders are shown |
| ActivityQuery.UserReviewMembership | app/Model/Activity.php:306-324 | a review is selected iff its rating was written by the user |
| ActivityQuery.ItemUnionMembership | app/Model/Activity.php:65-220 | a row is in the item union iff its order, liquidation, gift, reward, shipment or claim has a line for the item, or its review rates the item. PayPal orders never are |
| ActivityQuery.ItemReviewMembership | app/Model/Activity.php:145-163 | a review is selected iff its rating is about the item |
| ActivityQuery.ItemGiftMembership | app/Model/Activity.php:105-123 | a gift is selected iff it has a line for the item |
| ActivityQuery.ItemRewardMembership | app/Model/Activity.php:125-143 | a reward is selected iff it has a line for the item |
| ActivityQuery.ItemShipmentMembership | app/Model/Activity.php:165-183 | a shipment is selected iff it has a line for the item |
| ActivityQuery.Ordered | app/Model/Activity.php:222 | the ordered union is a permutation of the union, ordered by `activity_id` descending |
| ActivityQuery.Find | app/Model/Activity.php:354 | a page is ordered by `activity_id` descending, holds only union rows, and has at most `limit` rows; with no limit it is the whole union |
| ActivityQuery.CountIsUnionSize | app/Model/Activity.php:39-50 | counting a query with no limit gives the size of the union, i.e. the sum of the per-table selection sizes |
| ActivityQuery.BuiltQueriesGiveNewestRows | app/Model/Activity.php:580-626 | a query from a page-query builder returns the newest `limit` rows of its union (the global one uses the framework's own find) |
| ActivityQuery.FindIsWindow | app/Model/Activity.php:222 | a query with limit and offset returns exactly that window of the ordered union |
| ActivityQuery.ContiguousPagesCoverUnion | app/Model/Activity.php:337-354 | consecutive pages that together reach the count return every union row exactly once, in order, with none skipped |
| ActivityRecent.GroupIds | app/Model/Activity.php:374-385 | a model is a key of the id map iff the page has a row of that model, and its ids are the page's ids of that model, in page order |
| ActivityRecent.FetchModel | app/Model/Activity.php:389-398 | a model's fetch returns exactly the records of that model's table whose ids are in the requested list |
| ActivityRecent.FetchIfPresentSpec | app/Model/Activity.php:387-497 | a model's records come back exactly when the page lists their id under that model; a model absent from the page is not fetched |
| ActivityRecent.FetchPresent | app/Model/Activity.php:387-497 | every fetched record is complete for its model and comes from a row on the page |
| ActivityRecent.FetchAll | app/Model/Activity.php:387-497 | the conditional fetch-and-merge sequence over the eight models returns the concatenated per-model fetches |
| ActivityRecent.SortedFetch | app/Model/Activity.php:500 | the sorted records are a permutation of the fetched ones, newest date first |
| ActivityRecent.NormalizeSpec | app/Model/Activity.php:503-566 | squashing keeps model, id and date; orders and liquidations gain the `price * quantity` total; details become the item-id map with last-write-wins quantities; a reward also gets item 0 = its credit |
| ActivityRecent.SquashAll | app/Model/Activity.php:503-566 | the in-place loop leaves each record squashed, in the same order |
| ActivityRecent.GetRecent | app/Model/Activity.php:372-569 | `getRecent` returns the squashed records of the page, newest first, one per fetched record, each from a row of the page |
| ActivityRecent.PageRowsAreFetched | app/Model/Activity.php:387-500 | a record is among those `getRecent` sorts iff its table holds it and the page lists its id under its model, for every kind; a page row whose record is gone is dropped |
| SteamCache.BatchAt | app/Model/SteamPlayerCache.php:62 | `array_slice(ids, i*100, 100)` has at most 100 ids |
| SteamCache.BatchesSpec | app/Model/SteamPlayerCache.php:58-71 | the batching loop makes `ceil(n/100)` calls, each with 1 to 100 ids, and together they cover the ids in order |
| SteamCache.BatchAtIsBatch | app/Model/SteamPlayerCache.php:62 | slice `i` is batch `i` while batches remain, and empty afterwards (which ends the loop) |
| SteamCache.SavedKeys | app/Model/SteamPlayerCache.php:73-86 | after saving, the cache holds the old steamids plus those of the returned players |
| SteamCache.SavedKeepsOthers | app/Model/SteamPlayerCache.php:73-86 | rows of players not returned are untouched |
| SteamCache.SavedLastWins | app/Model/SteamPlayerCache.php:73-86 | a returned player's row is its last returned data, stamped with the cache time and precache flag |
| SteamCache.SavedKeyed | app/Model/SteamPlayerCache.php:73-86 | saving keeps every row filed under its own steamid |
| SteamCache.ValidFor | app/Model/SteamPlayerCache.php:34-44 | the players returned as valid are all counted as valid |
| SteamCache.ValidAndExpiredPartition | app/Model/SteamPlayerCache.php:152-173 | valid and expired rows are disjoint and together make up the cache, so the counts add up to its size |
| SteamCache.BoundaryRowIsCountedButNotReturned | app/Model/SteamPlayerCache.php:34-44 | a requested row cached exactly at the expiry time is counted as valid, is not expired, and is not returned by `getValidPlayers` |
| SteamCache.PrunedSpec | app/Model/SteamPlayerCache.php:140-145 | pruning removes exactly the expired rows, leaves the others unchanged, and leaves no expired row |
| SteamCache.SteamPlayerCache.GetExpireTime | app/Model/SteamPlayerCache.php:113-120 | the first call fixes the expiry at `now - duration` (or `now` when that is 0) and every later call returns the same value |
| SteamCache.SteamPlayerCache.GetValidPlayers | app/Model/SteamPlayerCache.php:34-44 | returns exactly the rows of requested steamids cached strictly after the expiry time (the memoised one, or now − cache duration on a first call) |
| SteamCache.SteamPlayerCache.RefreshPlayers | app/Model/SteamPlayerCache.php:54-88 | returns the API's answers for the batches, in order, and saves them all with the current time and precache flag |
| SteamCache.SteamPlayerCache.ClearAll | app/Model/SteamPlayerCache.php:93-95 | the cache is empty |
| SteamCache.SteamPlayerCache.RefreshAll | app/Model/SteamPlayerCache.php:100-104 | every cached steamid is sent to the API, and the answers are saved |
| SteamCache.SteamPlayerCache.RefreshExpiredPlayers | app/Model/SteamPlayerCache.php:125-135 | exactly the steamids expired at the expiry time (the memoised one, or now − cache duration on a first call) are sent to the API, and the answers are saved |
| SteamCache.SteamPlayerCache.PruneExpiredPlayers | app/Model/SteamPlayerCache.php:140-145 | the cache becomes the cache pruned at the expiry time (the memoised one, or now − cache duration on a first call) |
| SteamCache.SteamPlayerCache.CountValidPlayers | app/Model/SteamPlayerCache.php:152-159 | the number of rows cached at or after the expiry time (the memoised one, or now − cache duration on a first call) |
| SteamCache.SteamPlayerCache.CountExpiredPlayers | app/Model/SteamPlayerCache.php:166-173 | the number of rows cached before the expiry time (the memoised one, or now − cache duration on a first call) |
| SteamCache.SteamPlayerCache.CountPrecachedPlayers | app/Model/SteamPlayerCache.php:180-187 | at most the cache size, and 0 iff no row is precached |
| SteamCache.SteamPlayerCache.IsPlayerPrecached | app/Model/SteamPlayerCache.php:195-203 | true iff the steamid is cached and flagged precached |
| SteamPlayers.GetPlayers | app/Model/SteamPlayer.php:22-50 | a hit (non-empty and as many rows as accounts) serves the cache; otherwise the API's non-empty answer; otherwise the cached rows |
| SteamPlayers.HitMakesNoApiCall | app/Model/SteamPlayer.php:29-32 | on a hit the result does not depend on the API |
| SteamPlayers.MissRefetchesAllAccounts | app/Model/SteamPlayer.php:34-37 | on a miss the API is asked for all the accounts, not only the missing ones |
| SteamPlayers.EmptyRequest | app/Model/SteamPlayer.php:22-50 | asking for no accounts is never a hit, makes no API call, and returns nothing |
| SteamPlayers.HitIffAllCachedAndValid | app/Model/SteamPlayer.php:24-29 | for distinct accounts, a hit happens iff some were asked for and every one is cached after the expiry time |
| SteamPlayers.DuplicateAccountsNeverHit | app/Model/SteamPlayer.php:26-29 | a request naming an account twice is never a hit (the lookup has one row per steamid, fewer than the accounts counted), so it always goes to the API |
| SteamPlayers.GetPlayer | app/Model/SteamPlayer.php:58-71 | nothing when the lookup is empty; otherwise the first player, with `name` set to its persona name |
| Rewards.MergeSpec | app/Controller/RewardsController.php:54-75 | after merging, the user owns the old items plus the reward's items, each count raised by the reward's quantity for it, others unchanged |
| Rewards.FindPending | app/Controller/RewardsController.php:37-44 | finds the first recipient row of the reward and user that is not yet accepted; none iff there is no such row |
| Rewards.AcceptedOnce | app/Controller/RewardsController.php:78-79 | when each user has one row per reward: after marking, no pending row is left for that reward and user, so a second accept changes nothing; rows stay one per recipient |
| Rewards.AcceptConsumesOneRow | app/Controller/RewardsController.php:37-79 | in general, each merge marks exactly one pending row of the reward and user, so the pair merges once per pending row it has |
| Rewards.NoPendingIffZero | app/Controller/RewardsController.php:37-50 | `accept` finds nothing exactly when the pair has no pending row left |
| Rewards.DuplicateRowAcceptsTwice | app/Controller/RewardsController.php:37-79 | two pending rows for one reward and user: after the first accept the second is still pending, so the reward merges twice |
| Rewards.RewardStore.Accept | app/Controller/RewardsController.php:32-98 | merges iff a pending row exists: the reward's lines are added to the user's items and the row is marked accepted; otherwise nothing changes |
| Rewards.SplitRecipients | app/Controller/RewardsController.php:184 | at least one piece, the first a prefix of the field; no piece holds a line feed; the blanks around each line feed are removed (no piece but the last ends in whitespace, no piece but the first starts with it) |
| Rewards.SplitJoinedNames | app/Controller/RewardsController.php:184 | trimmed names (inner blanks allowed) joined by any whitespace holding a line feed split back into exactly those names |
| Rewards.SplitTrimsBlanks | app/Controller/RewardsController.php:184 | `"alice \n bob"` splits into `alice` and `bob` |
| Rewards.Kept | app/Controller/RewardsController.php:204-212 | keeps exactly the lines whose quantity is at least 1 |
| Rewards.KeptCounts | app/Controller/RewardsController.php:204-212 | a line with quantity at least 1 is kept as many times as it was posted; any other line never is |
| Rewards.KeptPrefix | app/Controller/RewardsController.php:204-212 | filtering a prefix of the posted lines gives a prefix of the kept lines, so kept lines stay in posted order |
| Rewards.KeptValueNonNegative | app/Controller/RewardsController.php:214-215 | with non-negative prices, the estimated value of the kept lines is not negative |
| Rewards.FilterDetails | app/Controller/RewardsController.php:204-216 | the filtering loop returns the kept lines and their total `price * quantity` (an unknown price counts as 0) |
| Rewards.Package | app/Controller/RewardsController.php:183-238 | an empty recipient field is an error; otherwise no kept line is an error; otherwise the package holds the resolved recipients, the sender, the message (`"0"` becomes empty), the kept lines and their value |
| Rewards.OrganizeRewards | app/Controller/RewardsController.php:140-152 | each reward on the page is organized, in the same order |
| Rewards.OrganizeSpec | app/Controller/RewardsController.php:140-152 | an organized reward has its details as an item-id map (last line wins) and its recipients as the list of their ids |

## Left out

- SQL text and the framework are not modelled.
  - The selections are modelled as functions over in-memory tables.
  - CakePHP's find, paginator, Hash, save and delete calls are modelled by what they compute.
- `getNewId` and its `NewActivity` stored procedure are not modelled: the id generator lives in the database.
- The global activity page is read by the framework's own find on the activity table. `ActivityQuery.BuiltQueriesGiveNewestRows` states it as the newest rows of that table.
- The paginator supplies the page size and offset. The offset is modelled as a parameter of the query.
- Sort ties are not pinned to what the database does.
  - `ActivityQuery.Ordered`: MySQL leaves the order of equal `activity_id` values open. The model picks one stable order.
  - `ActivityRecent.SortedFetch`: CakePHP's `Hash::sort` breaks date ties by row position in the same direction, so records with equal dates come back in reverse merge order. The model's sort promises only date order and a permutation; it does not fix the order of ties.
- `ActivityRecent.FetchModel`: each model's `find('all')` is taken in table order. The SQL result order is not specified.
- `ActivityRecent.GetRecent`: the `RewardRecipient` rows that the reward fetch also contains are not carried into the record.
- Money is modelled as integers. The decimal prices and credits are not modelled as decimals.
- Timestamps are integer seconds, and their string formatting is not modelled. `formatTimestamp` is modelled as "the given time, or now when it is 0".
- The Steam API call is a parameter.
  - Network failure, the timeout and the error logging collapse into "the API returned nothing" for a batch.
  - The `microtime` timing and the `CakeLog` messages are left out.
- `SteamCache.SteamPlayerCache.GetValidPlayers`: the CakePHP model's `$order` (`cached desc`) of the returned rows is not modelled. The rows come back in an unspecified order.
- `SteamCache.SteamPlayerCache.RefreshAll` and `SteamCache.SteamPlayerCache.RefreshExpiredPlayers`: the steamids are read in the CakePHP model's default order, `cached desc`; that order is not modelled, and the model reads them in an unspecified order. Each method's list is a ghost result.
- `SteamPlayers.GetPlayers`: `SteamPlayerCache->getPlayers` is not part of this model.
  - Its result is taken as a parameter. `SteamPlayers.HitIffAllCachedAndValid` relates it to `getValidPlayers`.
  - The conversion between 32-bit account ids and 64-bit steamids is not modelled.
- `SteamPlayers.GetPlayer`: the lookup result is a parameter.
- Rewards.AcceptedOnce: assumes each user has at most one `reward_recipient` row per reward. Nothing in the code enforces this. With two pending rows for the same pair, `accept` merges the reward twice (`Rewards.DuplicateRowAcceptsTwice`); `Rewards.AcceptConsumesOneRow` states the general behaviour.
- `Rewards.RewardStore.Accept`:
  - The `LOCK TABLES`/`UNLOCK TABLES` pair is taken as making the action atomic; concurrency is not modelled.
  - The in-game broadcast and the re-rendered inventory are left out.
  - A recipient row whose reward row is missing contributes no lines.
- `Rewards.Package`:
  - The account-name resolver (`resolveAccountIDs`) is a parameter.
  - The `Access` check, session write, flash messages, redirects and rendering are not modelled; their outcomes appear as the result.
- `Rewards.OrganizeRewards`: the paginator query and `addPlayers` are not modelled.
- The `UsersController`, the admin permission script, validation rules and the database schema are not part of this model.
