# rewards-api: the points ledger and the category distribution

This project models the two pieces of logic at the heart of the rewards API:

- **The points ledger** (`RewardsService`): users, the point-earning transactions, one running
  balance record per user, and redemptions of points for rewards. The operations are
  `getRewardPoints`, `getTransactions`, `redeemReward`, `addPoints`, `createUser`,
  `getRewardOptions`, the administrative views `getAllUsers`, `getAllRewards`,
  `getAllTransactions` and `getAllRedemptions`, and `getDatabaseSummary`.
- **The rewards distribution** (`AnalyticsService.getRewardsDistribution`): it groups all
  transactions by category and totals each group. It then sorts the groups by points and folds
  them into a summary.

The Mongo store is an immutable `State`. It holds four sequences in insertion order: users,
balance records, transactions and redemptions. Every operation is a pure function of the state.
An operation that changes the store returns `Ok((newState, output))`. An operation that fails
returns only its `Error`, so after a failure the store is the one before it. A transaction's or
redemption's id is its position in its collection. The clock is a `now: nat` argument, and the
seed data uses day numbers since 1970-01-01.

The central invariant is `Store.Valid`. It requires that:

- user ids are unique, and so are the balance owners;
- every balance record and every history entry has its owner;
- every stored balance equals the points its user earned minus the points they redeemed.

Every mutating operation keeps `Valid`. From it follow the per-user ledger identity
(`Store.Ledger`) and the system-wide one (`RewardsLaws.SystemBalance`).

Files:

- `results.dfy`: `Option` and `Result`.
- `seqs.dfy`: store-style `findOne`/`find` lookups, distinct keys and uniqueness.
- `sums.dfy`: `$sum` and the group-by identity.
- `sorting.dfy`: the descending sort.
- `strings.dfy`: substring inclusion.
- `paging.dfy`: skip/limit pagination arithmetic.
- `store.dfy`: the entities, balance lookup and save, and the invariant.
- `rewards.dfy`: the service operations.
- `laws.dfy`: properties that relate several calls.
- `analytics.dfy`: the distribution.
- `seed.dfy`: the seeded database as a concrete instance.

## Model

| member | source | states |
|---|---|---|
| Store.FindUser | src/modules/rewards/rewards.service.ts:24-27 | the user found has the requested id; nothing is found exactly when no user has that id |
| Store.BalanceOf | src/modules/rewards/rewards.service.ts:29-37 | a user without a balance record reads as 0; otherwise the result is the points of that user's record |
| Store.SetBalance | src/modules/rewards/rewards.service.ts:79-102 | after saving, the user has a record holding the new points; every other user's balance is unchanged |
| Store.SetBalanceSaves | src/modules/rewards/rewards.service.ts:79-102 | a save updates the user's record in place or appends one; every other record stays where it was; no user loses a record; one record per user stays one record per user |
| Store.Ledger | src/modules/rewards/rewards.service.ts:173-191 | in a valid store, every user's balance equals Σ pointsEarned of their transactions minus Σ pointsRedeemed of their redemptions, with or without a record |
| Strings.Includes | src/modules/rewards/rewards.service.ts:33 | `includes` is true exactly when the substring occurs at some position |
| Rewards.Multiplier.Factor | src/modules/rewards/rewards.service.ts:34 | Premium is the exact factor 3/2 and Standard is 1 |
| Rewards.IsPremium | src/modules/rewards/rewards.service.ts:33-34 | premium exactly when the email contains "premium" or "vip" as a case-sensitive substring |
| Rewards.GetRewardPoints | src/modules/rewards/rewards.service.ts:23-40 | fails with UserNotFound exactly when no user has the id; otherwise returns the stored balance (0 without a record) and the multiplier, which is Premium exactly when the user's email is premium |
| Rewards.History | src/modules/rewards/rewards.service.ts:52-54 | the user's transactions, each exactly as often as stored, ordered by timestamp non-increasing |
| Paging.PageCount | src/modules/rewards/rewards.service.ts:67 | the ceiling of total / limit: the least page count whose pages hold every item |
| Paging.Window | src/modules/rewards/rewards.service.ts:50-56 | skipping `skip` items keeps at most `take` items, position by position |
| Rewards.Paginate | src/modules/rewards/rewards.service.ts:49-67 | entry k of a page is history item (page-1)*limit+k; the page has min(limit, remaining) items and keeps the newest-first order; `total` is the history length and `pages` its page count |
| Rewards.GetTransactions | src/modules/rewards/rewards.service.ts:43-70 | fails with UserNotFound exactly when no user has the id; page and limit default to 1 and 5; `total` is the user's transaction count; the page is taken from the newest-first history |
| Rewards.RedeemReward | src/modules/rewards/rewards.service.ts:73-114 | unknown user: UserNotFound; balance below the request: InsufficientPoints(requested, balance) with nothing written; otherwise exactly one redemption is appended, the user's balance drops by exactly the points, stays ≥ 0, the record collection changes only by saving that balance, other balances are unchanged, and `remainingPoints` is the new stored balance |
| Rewards.AddPoints | src/modules/rewards/rewards.service.ts:167-203 | fails exactly for an unknown user; otherwise appends exactly one transaction with the given points, category and amount, raises the balance by exactly the points (a missing record starting at 0), changes the record collection only by saving that balance, leaves other balances unchanged, and `newBalance` is the new stored balance |
| Rewards.CreateUser | src/modules/rewards/rewards.service.ts:144-164 | an existing id returns that user and changes nothing; otherwise exactly one user is appended and reported as created |
| Rewards.GetRewardOptions | src/modules/rewards/rewards.service.ts:117-141 | the catalog is cashback, voucher and gift_card, in that order, costing 1000, 500 and 2000 points, each at 100 points per unit of value |
| Rewards.GetAllUsers | src/modules/rewards/rewards.service.ts:206-216 | count is the list length; the list is every user in store order |
| Rewards.GetAllRewards | src/modules/rewards/rewards.service.ts:218-227 | count is the list length; entry i is the user id and points of record i |
| Rewards.GetAllTransactions | src/modules/rewards/rewards.service.ts:229-242 | count is the list length; the list is a permutation of all transactions, newest first |
| Rewards.GetAllRedemptions | src/modules/rewards/rewards.service.ts:244-256 | count is the list length; the list is a permutation of all redemptions, newest first |
| Rewards.GetDatabaseSummary | src/modules/rewards/rewards.service.ts:258-291 | the counts agree with the administrative views; points in system is Σ of the listed balances; points redeemed is Σ of the listed redemptions (each 0 when empty); net is their difference |
| RewardsLaws.EarnedAppend | src/modules/rewards/rewards.service.ts:179-188 | recording a transaction adds its points to its own user's earnings only and changes nobody's redemptions |
| RewardsLaws.RedeemedAppend | src/modules/rewards/rewards.service.ts:91-99 | recording a redemption adds its points to its own user's redemptions only and changes nobody's earnings |
| RewardsLaws.AddPointsKeepsValid | src/modules/rewards/rewards.service.ts:167-203 | adding points to a valid store gives a valid store |
| RewardsLaws.EarnKeepsValid | src/modules/rewards/rewards.service.ts:173-191 | recording a next-id transaction of a registered user and raising their balance keeps the store valid |
| RewardsLaws.EarnKeepsLedger | src/modules/rewards/rewards.service.ts:173-191 | after earning, every record still equals its user's earnings minus redemptions |
| RewardsLaws.AddPointsSaves | src/modules/rewards/rewards.service.ts:173-191 | a successful AddPoints updates the user's balance record in place or appends it; every other record stays where it was and no user loses a record |
| RewardsLaws.RedeemRewardSaves | src/modules/rewards/rewards.service.ts:79-102 | a successful redemption updates the user's balance record in place or appends it; every other record stays where it was and no user loses a record |
| RewardsLaws.RedeemRewardKeepsValid | src/modules/rewards/rewards.service.ts:73-114 | a successful redemption on a valid store gives a valid store |
| RewardsLaws.SpendKeepsValid | src/modules/rewards/rewards.service.ts:79-102 | recording a next-id redemption of a registered user and lowering their balance keeps the store valid |
| RewardsLaws.SpendKeepsLedger | src/modules/rewards/rewards.service.ts:86-102 | after spending, every record still equals its user's earnings minus redemptions |
| RewardsLaws.CreateUserKeepsValid | src/modules/rewards/rewards.service.ts:144-164 | creating a user keeps the store valid |
| RewardsLaws.NoRecordNoRedeem | src/modules/rewards/rewards.service.ts:79-88 | a registered user without a balance record is refused every redemption with InsufficientPoints(points, 0), so the record created for the check is never saved |
| RewardsLaws.RedeemRewardKeepsNonNegative | src/modules/rewards/rewards.service.ts:86-99 | a successful redemption never makes a stored balance negative |
| RewardsLaws.AddPointsKeepsNonNegative | src/modules/rewards/rewards.service.ts:188 | earning a positive number of points never makes a stored balance negative |
| RewardsLaws.CreateUserIdempotent | src/modules/rewards/rewards.service.ts:145-148 | a second creation with the same id changes nothing and returns the user the first call stored |
| RewardsLaws.PageEntry | src/modules/rewards/rewards.service.ts:50-57 | a page that starts inside the history is counted in `pages`, and its entry k is history item (page-1)*limit+k |
| RewardsLaws.ItemOnPage | src/modules/rewards/rewards.service.ts:50-67 | every history item i is entry i mod limit of page i div limit + 1 |
| RewardsLaws.SystemBalance | src/modules/rewards/rewards.service.ts:266-272 | in a valid store the stored balances add up to all points earned minus all points redeemed |
| RewardsLaws.SummaryNetAsWritten | src/modules/rewards/rewards.service.ts:282 | in a valid store the reported net equals Σ earned minus twice Σ redeemed |
| RewardsLaws.CorrectedNetIsBalance | src/modules/rewards/rewards.service.ts:280-282 | the corrected net equals the sum of the stored balances (the points in the system), and is ≥ 0 while no balance is negative |
| Analytics.GroupStats | src/modules/analytics/analytics.service.ts:15-30 | a group of an occurring category totals the points and amounts of exactly that category's transactions and counts them (at least one); its average is exactly totalPoints / transactionCount |
| Analytics.Groups | src/modules/analytics/analytics.service.ts:15-20 | one group per requested category, position by position |
| Analytics.GetRewardsDistribution | src/modules/analytics/analytics.service.ts:12-49 | the entries are the category groups, sorted by totalPoints non-increasing |
| Analytics.DistributionEntries | src/modules/analytics/analytics.service.ts:15-19 | each entry belongs to a category that occurs and is that category's full group |
| Analytics.DistributionCovers | src/modules/analytics/analytics.service.ts:16 | every category that occurs among the transactions has an entry |
| Analytics.DistributionUnique | src/modules/analytics/analytics.service.ts:16 | no category has two entries |
| Analytics.GroupsSums | src/modules/analytics/analytics.service.ts:17-19 | the groups' point totals and counts are the per-category sums of points and of ones |
| Analytics.DistributionPoints | src/modules/analytics/analytics.service.ts:38 | the summary's totalPoints is Σ pointsEarned over all transactions |
| Analytics.DistributionCount | src/modules/analytics/analytics.service.ts:39 | the summary's totalTransactions is the number of transactions |
| Analytics.DistributionCategories | src/modules/analytics/analytics.service.ts:46 | the summary's categories is the number of distinct transaction categories |
| Analytics.DistributionEmpty | src/modules/analytics/analytics.service.ts:38-47 | the distribution is empty exactly when there are no transactions, and then every summary field is 0 |
| Seed.SeedValid | src/database/seeds/database.seeder.ts:44-122 | the seeded users, transactions and balances form a valid store |
| Seed.SeedEarned | src/database/seeds/database.seeder.ts:106-122 | the seeded balances 415, 105 and 125 are exactly each user's earned points |
| Seed.SeedPoints | src/modules/rewards/rewards.service.ts:23-40 | on the seeded store user123 holds 415 points at the standard multiplier |
| Seed.SeedRedemptions | src/modules/rewards/rewards.service.ts:86-111 | on the seeded store, redeeming 500 of user123's points fails with InsufficientPoints(500, 415); redeeming 400 leaves 15 |
| Seed.SeedNetAfterRedemption | src/modules/rewards/rewards.service.ts:280-282 | after that redemption the service reports 245 in the system, 400 redeemed and a net of -155; the corrected net is 245 |
| Seed.SeedDistribution | src/modules/analytics/analytics.service.ts:38-39 | the seeded distribution totals 645 points over 8 transactions |
| Seed.Reseed | src/database/seeds/database.seeder.ts:17-124 | re-seeding replaces the users, transactions and balance records with the seed data and keeps the prior store's redemptions |
| Seed.ReseedBreaksLedger | src/database/seeds/database.seeder.ts:17-20 | re-seeding after user123 redeemed 400 points restores the 415-point balance while the redemption stays, so earned minus redeemed is 15 and the store is no longer valid |
| Seed.CorrectedReseed | src/database/seeds/database.seeder.ts:17-124 | seeding that also empties the redemptions gives the seeded users and transactions, no redemptions, and a valid store, whatever the store held before |

## Left out

- HTTP controllers, Swagger metadata, the WebSocket gateway and the Nest/Mongoose module wiring are left out. The service never calls the gateway. Of the controllers, only the missing-field guards at `src/modules/rewards/rewards.controller.ts:212` and `:243` are kept, as preconditions.
- The seeding scripts' I/O is left out; `seed.dfy` models the seeded values and which collections a re-seed empties.
- `Seed.SeedState` models a first seeding, into an empty redemption collection. The seeder does not empty the redemptions (`src/database/seeds/database.seeder.ts:17-20`), so a re-seeding keeps them; `Seed.Reseed` models that, and the second finding below shows what it breaks.
- Concurrency and atomicity are left out. Each operation is one step, so the race between reading and saving a balance is not modelled. Neither is the redemption `create` running separately from the balance `save`.
- Floating point is left out:
  - the 1.5 multiplier is the `Premium` tag with the exact factor 3/2;
  - the average per transaction is the exact fraction `Ratio(totalPoints, transactionCount)`;
  - amounts are integers;
  - points are integers. The service accepts fractional points (`pointsToRedeem` is checked only as a number of at least 1, and the guard at `src/modules/rewards/rewards.controller.ts:212` admits any non-zero number) and computes balances in floating point at `rewards.service.ts:99` and `:188`.
- Mongo `ObjectId`s, `new Date()` and the automatic `createdAt`/`updatedAt` fields are left out. Ids are positions and the clock is a parameter. The seeded balances carry the seeding time as a parameter.
- Response message strings and the catalog descriptions are left out.
- `src/common/dto/pagination.dto.ts` is not part of this model. `page` and `limit`, when given, are assumed to be at least 1. The documented maximum of 100 is not modelled.
- Sort ties are left open. Mongo gives no order among equal timestamps or equal totals. The model sorts with one particular insertion sort, and its contracts promise only the order and the permutation.
- A rejected redemption never creates a balance record: the unsaved record of `rewards.service.ts:82` is discarded when the check at `:86` throws.
- The service has no check that rejects `pointsToRedeem < 1` or negative points:
  - `pointsToRedeem >= 1` is the request validator's precondition;
  - `addPoints` accepts any non-zero points, including negative ones.
- The unit tests expect no `multiplier` field, a `save` of the redemption, and a successful 100-point redemption by a user without a balance record (`rewards.service.spec.ts:183-207`). The model follows the service: it returns the multiplier, uses `create`, and refuses that redemption with InsufficientPoints(100, 0), since the record created at `:82` starts at 0 (`RewardsLaws.NoRecordNoRedeem`).
- RewardsLaws.AddPointsKeepsNonNegative: assumes `points > 0`. The service accepts negative points, which can drive a balance below 0.
- Rewards.GetDatabaseSummary: states the net exactly as written. The finding below shows it subtracting redemptions twice, and `Rewards.CorrectedDatabaseSummary` gives the corrected value.

## Findings

| source | as written | input that shows it | evidently intended | confidence | as-written member | corrected member |
|---|---|---|---|---|---|---|
| src/modules/rewards/rewards.service.ts:282 | `netPointsAvailable` is Σ stored balances − Σ redeemed points, but the stored balances already have every redemption deducted | seeded store, then user123 redeems 400: the report is 245 in the system, 400 redeemed, and a net of −155 points available | net points available is Σ earned − Σ redeemed, which in a valid store equals the points still held (245 here), and is ≥ 0 while no balance is negative | medium; not executed | RewardsLaws.SummaryNetAsWritten | RewardsLaws.CorrectedNetIsBalance |
| src/database/seeds/database.seeder.ts:17-20 | the seeder empties users, transactions and balance records but not redemptions | seed, let user123 redeem 400, seed again: user123's balance is 415 again while the 400-point redemption stays, so the balance is no longer earned minus redeemed (15) | seeding empties the redemption collection as well, giving the valid seeded store | medium; not executed | Seed.ReseedBreaksLedger | Seed.CorrectedReseed |
