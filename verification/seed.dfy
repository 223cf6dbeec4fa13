/** The data a first seeding writes into an empty database, and what the service answers on it:
    three users, eight transactions and the three balances computed from them. Dates are day
    numbers since 1970-01-01 (2024-01-15 is day 19737); the balance records carry the seeding
    time `now`. */
module Seed {
  import opened Results
  import opened Seqs
  import opened Sums
  import opened Store
  import opened Rewards
  import opened RewardsLaws
  import opened Strings
  import opened Analytics

  const SeedUsers: seq<User> := [
    User("user123", "John Doe", "john.doe@example.com"),
    User("user456", "Jane Smith", "jane.smith@example.com"),
    User("user789", "Bob Johnson", "bob.johnson@example.com")]

  const SeedTransactions: seq<Transaction> := [
    Transaction(0, "user123", 100, "shopping", 50, 19737),
    Transaction(1, "user123", 200, "dining", 100, 19742),
    Transaction(2, "user123", 150, "travel", 75, 19747),
    Transaction(3, "user123", 80, "shopping", 40, 19752),
    Transaction(4, "user123", 300, "entertainment", 150, 19754),
    Transaction(5, "user456", 120, "shopping", 60, 19740),
    Transaction(6, "user456", 90, "dining", 45, 19744),
    Transaction(7, "user789", 250, "travel", 125, 19750)]

  function SeedState(now: nat): State {
    State(SeedUsers,
          [RewardRecord("user123", 415, now), RewardRecord("user456", 105, now), RewardRecord("user789", 125, now)],
          SeedTransactions, [])
  }

  /** The seeded balances are exactly each user's earned points, so the seeded store is valid. */
  lemma SeedValid(now: nat)
    ensures Valid(SeedState(now))
  {
    SeedOwned(now);
    SeedEarned(now);
  }

  /** Every seeded balance and transaction has its owner. */
  lemma SeedOwned(now: nat)
    ensures UniqueKeys(SeedState(now).users, UserId) && UniqueKeys(SeedState(now).rewards, RecordUser)
    ensures IdsArePositions(SeedState(now))
    ensures RecordsOwned(SeedState(now)) && HistoryOwned(SeedState(now))
  {
    var s := SeedState(now);
    assert UserId(s.users[0]) == "user123" && UserId(s.users[1]) == "user456" && UserId(s.users[2]) == "user789";
    assert RecordUser(s.rewards[0]) == "user123" && RecordUser(s.rewards[1]) == "user456"
        && RecordUser(s.rewards[2]) == "user789";
  }

  /** Each seeded balance is what its user earned; nothing is redeemed yet. */
  lemma SeedEarned(now: nat)
    ensures BalancesMatchHistory(SeedState(now))
  {
    var s := SeedState(now);
    EarnedBy(s, "user123", 415);
    EarnedBy(s, "user456", 105);
    EarnedBy(s, "user789", 125);
    BalancesFromEarnings(s, now);
  }

  /** Three balances matching three users' earnings, with nothing redeemed, match the history. */
  lemma BalancesFromEarnings(s: State, now: nat)
    requires s.rewards == SeedState(now).rewards && s.redemptions == []
    requires Earned(s, "user123") == 415 && Earned(s, "user456") == 105 && Earned(s, "user789") == 125
    ensures BalancesMatchHistory(s)
  {
    assert forall v :: Redeemed(s, v) == 0;
  }

  /** The points the seeded transactions give `userId`. */
  lemma EarnedBy(s: State, userId: string, points: int)
    requires s.transactions == SeedTransactions
    requires (userId, points) in {("user123", 415), ("user456", 105), ("user789", 125)}
    ensures Earned(s, userId) == points
  {
    SumFilter(SeedTransactions, TxUser, userId, TxPoints);
  }

  /** user123 holds 415 points and has no premium email. */
  lemma SeedPoints(now: nat)
    ensures GetRewardPoints(SeedState(now), "user123") == Ok(PointsView(415, Standard))
  {
    var s := SeedState(now);
    assert IndexOf(s.users, UserId, "user123") == Some(0);
    NotPremium();
  }

  /** user123's email names neither "premium" nor "vip". */
  lemma NotPremium()
    ensures !PremiumEmail("john.doe@example.com")
  {
    MissingChar("john.doe@example.com", "premium", 'r');
    MissingChar("john.doe@example.com", "vip", 'v');
  }

  /** Redeeming 500 of user123's 415 points is refused; redeeming 400 leaves 15. */
  lemma SeedRedemptions(now: nat, t: nat)
    ensures RedeemReward(SeedState(now), "user123", "cashback", 500, t) == Err(InsufficientPoints(500, 415))
    ensures RedeemReward(SeedState(now), "user123", "voucher", 400, t).Ok?
    ensures RedeemReward(SeedState(now), "user123", "voucher", 400, t).value.1.remainingPoints == 15
  {
    assert HasUser(SeedState(now), "user123") by {
      assert UserId(SeedState(now).users[0]) == "user123";
    }
  }

  /** The store after user123 redeems 400 points of the seeded balance. */
  function AfterRedemption(now: nat, t: nat): State {
    SeedRedemptions(now, t);
    RedeemReward(SeedState(now), "user123", "voucher", 400, t).value.0
  }

  lemma AfterRedemptionValid(now: nat, t: nat)
    ensures Valid(AfterRedemption(now, t))
    ensures AfterRedemption(now, t).transactions == SeedTransactions
    ensures AfterRedemption(now, t).redemptions == [Redemption(0, "user123", 400, "voucher", t)]
  {
    SeedValid(now);
    SeedRedemptions(now, t);
    RedeemRewardKeepsValid(SeedState(now), "user123", "voucher", 400, t);
  }

  /** The totals after the redemption: 645 points earned, 400 redeemed and 245 still held. */
  lemma AfterRedemptionTotals(now: nat, t: nat)
    ensures Sum(AfterRedemption(now, t).transactions, TxPoints) == 645
    ensures Sum(AfterRedemption(now, t).redemptions, RedPoints) == 400
    ensures Sum(AfterRedemption(now, t).rewards, RecordPoints) == 245
  {
    AfterRedemptionValid(now, t);
    SystemBalance(AfterRedemption(now, t));
  }

  /** The summary of a store holding `held` points of `earned` earned and `redeemed` redeemed. */
  lemma SummaryOf(s: State, earned: int, redeemed: int, held: int)
    requires Sum(s.transactions, TxPoints) == earned
    requires Sum(s.redemptions, RedPoints) == redeemed
    requires Sum(s.rewards, RecordPoints) == held
    ensures GetDatabaseSummary(s).totalPointsInSystem == held
    ensures GetDatabaseSummary(s).totalPointsRedeemed == redeemed
    ensures GetDatabaseSummary(s).netPointsAvailable == held - redeemed
    ensures CorrectedDatabaseSummary(s).netPointsAvailable == earned - redeemed
  {
  }

  /** After user123 redeems 400 points the service reports 245 points in the system and 400
      redeemed, and a net of -155 points available: the redemption is subtracted twice. On the
      same store the corrected net is the 245 points still held. */
  lemma SeedNetAfterRedemption(now: nat, t: nat)
    ensures GetDatabaseSummary(AfterRedemption(now, t)).totalPointsInSystem == 245
    ensures GetDatabaseSummary(AfterRedemption(now, t)).totalPointsRedeemed == 400
    ensures GetDatabaseSummary(AfterRedemption(now, t)).netPointsAvailable == -155
    ensures CorrectedDatabaseSummary(AfterRedemption(now, t)).netPointsAvailable == 245
  {
    AfterRedemptionTotals(now, t);
    SummaryOf(AfterRedemption(now, t), 645, 400, 245);
  }

  /** The seeded distribution's summary: 645 points over 8 transactions. */
  lemma SeedDistribution()
    ensures GetRewardsDistribution(SeedTransactions).summary.totalPoints == 645
    ensures GetRewardsDistribution(SeedTransactions).summary.totalTransactions == 8
  {
    DistributionPoints(SeedTransactions);
    DistributionCount(SeedTransactions);
  }

  /** The seeder as written: it empties and refills the users, the transactions and the balance
      records, but leaves the redemption collection as it was. */
  function Reseed(s: State, now: nat): (r: State)
    ensures r.users == SeedUsers && r.transactions == SeedTransactions
    ensures r.rewards == SeedState(now).rewards && r.redemptions == s.redemptions
  {
    SeedState(now).(redemptions := s.redemptions)
  }

  /** Re-seeding after user123 redeemed 400 points restores their 415-point balance while the
      400-point redemption stays recorded, so the balance no longer equals earned minus redeemed. */
  lemma ReseedBreaksLedger(now: nat, t: nat, later: nat)
    ensures BalanceOf(Reseed(AfterRedemption(now, t), later).rewards, "user123") == 415
    ensures Earned(Reseed(AfterRedemption(now, t), later), "user123")
            - Redeemed(Reseed(AfterRedemption(now, t), later), "user123") == 15
    ensures !Valid(Reseed(AfterRedemption(now, t), later))
  {
    var r := Reseed(AfterRedemption(now, t), later);
    AfterRedemptionValid(now, t);
    EarnedBy(r, "user123", 415);
    assert r.redemptions == [Redemption(0, "user123", 400, "voucher", t)];
    assert Redeemed(r, "user123") == 400;
    assert r.rewards[0] == RewardRecord("user123", 415, later);
  }

  /** The seeder with the redemption collection emptied as well: whatever the store held
      before, the result is the seeded store, and it is valid. */
  function CorrectedReseed(s: State, now: nat): (r: State)
    ensures Valid(r)
    ensures r.users == SeedUsers && r.transactions == SeedTransactions && r.redemptions == []
  {
    SeedValid(now);
    SeedState(now)
  }
}
