/** Properties that relate several calls of the rewards service: the ledger invariant is kept by
    every operation, balances stay non-negative, user creation is idempotent, every transaction
    lies on one page, and the summary's totals agree with the transaction history. */
module RewardsLaws {
  import opened Results
  import opened Seqs
  import opened Sums
  import opened Paging
  import opened Store
  import opened Rewards

  /** Recording a transaction adds its points to its own user's earnings only. */
  lemma EarnedAppend(s: State, t: Transaction, v: string)
    ensures Earned(Earn(s, t), v) == Earned(s, v) + (if t.userId == v then t.pointsEarned else 0)
    ensures Redeemed(Earn(s, t), v) == Redeemed(s, v)
  {
    FilterAppend(s.transactions, [t], TxUser, v);
    SumAppend(Filter(s.transactions, TxUser, v), Filter([t], TxUser, v), TxPoints);
  }

  /** Recording a redemption adds its points to its own user's redeemed total only. */
  lemma RedeemedAppend(s: State, d: Redemption, v: string)
    ensures Redeemed(Spend(s, d), v) == Redeemed(s, v) + (if d.userId == v then d.pointsRedeemed else 0)
    ensures Earned(Spend(s, d), v) == Earned(s, v)
  {
    FilterAppend(s.redemptions, [d], RedUser, v);
    SumAppend(Filter(s.redemptions, RedUser, v), Filter([d], RedUser, v), RedPoints);
  }

  /** With one record per user, a record's points are that user's balance. */
  lemma BalanceOfRecord(rw: seq<RewardRecord>, i: nat)
    requires UniqueKeys(rw, RecordUser) && i < |rw|
    ensures BalanceOf(rw, rw[i].userId) == rw[i].totalPoints
  {
    var j :| 0 <= j < |rw| && rw[j].userId == rw[i].userId && rw[j].totalPoints == BalanceOf(rw, rw[i].userId);
    assert RecordUser(rw[i]) == RecordUser(rw[j]);
  }

  /** A balance-saving step whose new history entries all belong to the record's user keeps
      every history entry owned by a user with a balance record. */
  lemma StepKeepsHistoryOwned(s: State, record: RewardRecord, txs: seq<Transaction>, reds: seq<Redemption>)
    requires forall i :: 0 <= i < |txs| ==> txs[i].userId == record.userId || HasRecord(s.rewards, txs[i].userId)
    requires forall i :: 0 <= i < |reds| ==> reds[i].userId == record.userId || HasRecord(s.rewards, reds[i].userId)
    ensures HistoryOwned(Saved(s, record, txs, reds))
  {
    SetBalanceSaves(s.rewards, record.userId, record.totalPoints, record.updatedAt);
  }

  /** A successful AddPoints keeps the ledger invariant. */
  lemma AddPointsKeepsValid(s: State, u: string, points: int, category: string, amount: int, now: nat)
    requires Valid(s)
    requires points != 0 && |category| > 0 && amount != 0
    ensures AddPoints(s, u, points, category, amount, now).Ok? ==>
              Valid(AddPoints(s, u, points, category, amount, now).value.0)
  {
    if HasUser(s, u) {
      var t := Transaction(|s.transactions|, u, amount, category, points, now);
      EarnKeepsValid(s, t);
    }
  }

  lemma SavedAs(rewards: seq<RewardRecord>, r: seq<RewardRecord>, userId: string, points: int, now: nat)
    requires r == SetBalance(rewards, userId, points, now)
    ensures SavedBalance(rewards, r, RewardRecord(userId, points, now))
  {
    SetBalanceSaves(rewards, userId, points, now);
  }

  /** A successful AddPoints saves the user's balance in place or appends it, and leaves every
      other balance record where it was. */
  lemma AddPointsSaves(s: State, u: string, points: int, category: string, amount: int, now: nat,
                       s': State, receipt: PointsReceipt)
    requires points != 0 && |category| > 0 && amount != 0
    requires AddPoints(s, u, points, category, amount, now) == Ok((s', receipt))
    ensures SavedBalance(s.rewards, s'.rewards, RewardRecord(u, BalanceOf(s.rewards, u) + points, now))
  {
    var b := BalanceOf(s'.rewards, u);
    assert b == BalanceOf(s.rewards, u) + points;
    SavedAs(s.rewards, s'.rewards, u, b, now);
  }

  /** A successful RedeemReward saves the user's balance in place or appends it, and leaves every
      other balance record where it was. */
  lemma RedeemRewardSaves(s: State, u: string, rewardType: string, points: int, now: nat,
                          s': State, receipt: RedemptionReceipt)
    requires points >= 1 && |rewardType| > 0
    requires RedeemReward(s, u, rewardType, points, now) == Ok((s', receipt))
    ensures SavedBalance(s.rewards, s'.rewards, RewardRecord(u, BalanceOf(s.rewards, u) - points, now))
  {
    var b := BalanceOf(s'.rewards, u);
    assert b == BalanceOf(s.rewards, u) - points;
    SavedAs(s.rewards, s'.rewards, u, b, now);
  }

  /** Recording transaction `t` for a registered user and saving the raised balance. */
  lemma EarnKeepsValid(s: State, t: Transaction)
    requires Valid(s) && HasUser(s, t.userId) && t.id == |s.transactions|
    ensures Valid(Earn(s, t))
  {
    EarnKeepsOwners(s, t);
    EarnKeepsHistory(s, t);
    ValidBalanced(s);
    EarnKeepsLedger(s, t);
    AssembleValid(Earn(s, t));
  }

  lemma EarnKeepsOwners(s: State, t: Transaction)
    requires RecordsOwned(s) && UniqueKeys(s.rewards, RecordUser) && HasUser(s, t.userId)
    ensures RecordsOwned(Earn(s, t)) && UniqueKeys(Earn(s, t).rewards, RecordUser)
  {
    var s' := Earn(s, t);
    var record := RewardRecord(t.userId, BalanceOf(s.rewards, t.userId) + t.pointsEarned, t.timestamp);
    SetBalanceSaves(s.rewards, record.userId, record.totalPoints, record.updatedAt);
    assert s'.users == s.users;
    forall i | 0 <= i < |s'.rewards|
      ensures HasUser(s', s'.rewards[i].userId)
    {
      if s'.rewards[i] != record {
        assert s'.rewards[i] == s.rewards[i];
      }
    }
  }

  lemma EarnKeepsHistory(s: State, t: Transaction)
    requires IdsArePositions(s) && HistoryOwned(s) && t.id == |s.transactions|
    ensures IdsArePositions(Earn(s, t)) && HistoryOwned(Earn(s, t))
  {
    var record := RewardRecord(t.userId, BalanceOf(s.rewards, t.userId) + t.pointsEarned, t.timestamp);
    var s' := Saved(s, record, s.transactions + [t], s.redemptions);
    assert Earn(s, t) == s';
    EarnOwners(s, t, s');
    StepKeepsHistoryOwned(s, record, s'.transactions, s'.redemptions);
  }

  lemma AssembleValid(s: State)
    requires UniqueKeys(s.users, UserId) && UniqueKeys(s.rewards, RecordUser)
    requires RecordsOwned(s) && IdsArePositions(s) && HistoryOwned(s) && BalancesMatchHistory(s)
    ensures Valid(s)
  {
  }

  lemma EarnKeepsLedger(s: State, t: Transaction)
    requires UniqueKeys(s.rewards, RecordUser) && Balanced(s)
    ensures BalancesMatchHistory(Earn(s, t))
  {
    var s' := Earn(s, t);
    SetBalanceSaves(s.rewards, t.userId, BalanceOf(s.rewards, t.userId) + t.pointsEarned, t.timestamp);
    forall i | 0 <= i < |s'.rewards|
      ensures s'.rewards[i].totalPoints == Earned(s', s'.rewards[i].userId) - Redeemed(s', s'.rewards[i].userId)
    {
      var v := s'.rewards[i].userId;
      BalanceOfRecord(s'.rewards, i);
      EarnedAppend(s, t, v);
    }
  }

  lemma EarnOwners(s: State, t: Transaction, s': State)
    requires IdsArePositions(s) && HistoryOwned(s) && t.id == |s.transactions|
    requires s'.transactions == s.transactions + [t] && s'.redemptions == s.redemptions
    ensures IdsArePositions(s')
    ensures forall i :: 0 <= i < |s'.transactions| ==>
              s'.transactions[i].userId == t.userId || HasRecord(s.rewards, s'.transactions[i].userId)
    ensures forall i :: 0 <= i < |s'.redemptions| ==>
              s'.redemptions[i].userId == t.userId || HasRecord(s.rewards, s'.redemptions[i].userId)
  {
    assert forall i :: 0 <= i < |s.transactions| ==> s'.transactions[i] == s.transactions[i];
  }

  /** A successful RedeemReward keeps the ledger invariant. */
  lemma RedeemRewardKeepsValid(s: State, u: string, rewardType: string, points: int, now: nat)
    requires Valid(s)
    requires points >= 1 && |rewardType| > 0
    ensures RedeemReward(s, u, rewardType, points, now).Ok? ==>
              Valid(RedeemReward(s, u, rewardType, points, now).value.0)
  {
    if HasUser(s, u) && BalanceOf(s.rewards, u) >= points {
      var d := Redemption(|s.redemptions|, u, points, rewardType, now);
      SpendKeepsValid(s, d);
    }
  }

  /** Recording redemption `d` for a registered user and saving the lowered balance. */
  lemma SpendKeepsValid(s: State, d: Redemption)
    requires Valid(s) && HasUser(s, d.userId) && d.id == |s.redemptions|
    ensures Valid(Spend(s, d))
  {
    SpendKeepsOwners(s, d);
    SpendKeepsHistory(s, d);
    ValidBalanced(s);
    SpendKeepsLedger(s, d);
    AssembleValid(Spend(s, d));
  }

  lemma SpendKeepsOwners(s: State, d: Redemption)
    requires RecordsOwned(s) && UniqueKeys(s.rewards, RecordUser) && HasUser(s, d.userId)
    ensures RecordsOwned(Spend(s, d)) && UniqueKeys(Spend(s, d).rewards, RecordUser)
  {
    var s' := Spend(s, d);
    var record := RewardRecord(d.userId, BalanceOf(s.rewards, d.userId) - d.pointsRedeemed, d.timestamp);
    SetBalanceSaves(s.rewards, record.userId, record.totalPoints, record.updatedAt);
    assert s'.users == s.users;
    forall i | 0 <= i < |s'.rewards|
      ensures HasUser(s', s'.rewards[i].userId)
    {
      if s'.rewards[i] != record {
        assert s'.rewards[i] == s.rewards[i];
      }
    }
  }

  lemma SpendKeepsHistory(s: State, d: Redemption)
    requires IdsArePositions(s) && HistoryOwned(s) && d.id == |s.redemptions|
    ensures IdsArePositions(Spend(s, d)) && HistoryOwned(Spend(s, d))
  {
    var record := RewardRecord(d.userId, BalanceOf(s.rewards, d.userId) - d.pointsRedeemed, d.timestamp);
    var s' := Saved(s, record, s.transactions, s.redemptions + [d]);
    assert Spend(s, d) == s';
    SpendOwners(s, d, s');
    StepKeepsHistoryOwned(s, record, s'.transactions, s'.redemptions);
  }

  lemma SpendKeepsLedger(s: State, d: Redemption)
    requires UniqueKeys(s.rewards, RecordUser) && Balanced(s)
    ensures BalancesMatchHistory(Spend(s, d))
  {
    var s' := Spend(s, d);
    SetBalanceSaves(s.rewards, d.userId, BalanceOf(s.rewards, d.userId) - d.pointsRedeemed, d.timestamp);
    forall i | 0 <= i < |s'.rewards|
      ensures s'.rewards[i].totalPoints == Earned(s', s'.rewards[i].userId) - Redeemed(s', s'.rewards[i].userId)
    {
      var v := s'.rewards[i].userId;
      BalanceOfRecord(s'.rewards, i);
      RedeemedAppend(s, d, v);
    }
  }

  lemma SpendOwners(s: State, d: Redemption, s': State)
    requires IdsArePositions(s) && HistoryOwned(s) && d.id == |s.redemptions|
    requires s'.redemptions == s.redemptions + [d] && s'.transactions == s.transactions
    ensures IdsArePositions(s')
    ensures forall i :: 0 <= i < |s'.transactions| ==>
              s'.transactions[i].userId == d.userId || HasRecord(s.rewards, s'.transactions[i].userId)
    ensures forall i :: 0 <= i < |s'.redemptions| ==>
              s'.redemptions[i].userId == d.userId || HasRecord(s.rewards, s'.redemptions[i].userId)
  {
    assert forall i :: 0 <= i < |s.redemptions| ==> s'.redemptions[i] == s.redemptions[i];
  }

  /** CreateUser keeps the ledger invariant. */
  lemma CreateUserKeepsValid(s: State, id: string, name: string, email: string)
    requires Valid(s)
    requires |id| > 0 && |name| > 0 && |email| > 0
    ensures Valid(CreateUser(s, id, name, email).0)
  {
    var s' := CreateUser(s, id, name, email).0;
    if !HasUser(s, id) {
      forall i, j | 0 <= i < j < |s'.users|
        ensures UserId(s'.users[i]) != UserId(s'.users[j])
      {
        if j == |s.users| {
          assert s'.users[i] == s.users[i];
        }
      }
      forall i | 0 <= i < |s'.rewards|
        ensures HasUser(s', s'.rewards[i].userId)
      {
        assert HasUser(s, s.rewards[i].userId);
        var k :| 0 <= k < |s.users| && s.users[k].id == s.rewards[i].userId;
        assert s'.users[k] == s.users[k];
      }
    }
  }

  /** A registered user without a balance record redeems from a balance of 0: every request the
      request validator admits is refused, and the record created for the check is never saved. */
  lemma NoRecordNoRedeem(s: State, u: string, rewardType: string, points: int, now: nat)
    requires points >= 1 && |rewardType| > 0
    requires HasUser(s, u) && !HasRecord(s.rewards, u)
    ensures RedeemReward(s, u, rewardType, points, now) == Err(InsufficientPoints(points, 0))
  {
  }

  /** A successful redemption never leaves a negative balance behind. */
  lemma RedeemRewardKeepsNonNegative(s: State, u: string, rewardType: string, points: int, now: nat)
    requires NonNegative(s.rewards)
    requires points >= 1 && |rewardType| > 0
    ensures RedeemReward(s, u, rewardType, points, now).Ok? ==>
              NonNegative(RedeemReward(s, u, rewardType, points, now).value.0.rewards)
  {
    if HasUser(s, u) && BalanceOf(s.rewards, u) >= points {
      SpendKeepsNonNegative(s, Redemption(|s.redemptions|, u, points, rewardType, now));
    }
  }

  lemma SpendKeepsNonNegative(s: State, d: Redemption)
    requires NonNegative(s.rewards) && BalanceOf(s.rewards, d.userId) >= d.pointsRedeemed
    ensures NonNegative(Spend(s, d).rewards)
  {
    SetBalanceSaves(s.rewards, d.userId, BalanceOf(s.rewards, d.userId) - d.pointsRedeemed, d.timestamp);
  }

  /** Earning a non-negative number of points never makes a balance negative; the service itself
      accepts any non-zero `points`, so this needs `points >= 0` as an assumption. */
  lemma AddPointsKeepsNonNegative(s: State, u: string, points: int, category: string, amount: int, now: nat)
    requires NonNegative(s.rewards)
    requires points > 0 && |category| > 0 && amount != 0
    ensures AddPoints(s, u, points, category, amount, now).Ok? ==>
              NonNegative(AddPoints(s, u, points, category, amount, now).value.0.rewards)
  {
    if HasUser(s, u) {
      EarnKeepsNonNegative(s, Transaction(|s.transactions|, u, amount, category, points, now));
    }
  }

  lemma EarnKeepsNonNegative(s: State, t: Transaction)
    requires NonNegative(s.rewards) && t.pointsEarned >= 0
    ensures NonNegative(Earn(s, t).rewards)
  {
    var u := t.userId;
    SetBalanceSaves(s.rewards, u, BalanceOf(s.rewards, u) + t.pointsEarned, t.timestamp);
    if HasRecord(s.rewards, u) {
      var i :| 0 <= i < |s.rewards| && s.rewards[i].userId == u && s.rewards[i].totalPoints == BalanceOf(s.rewards, u);
    }
  }

  /** A second CreateUser with the same id, whatever the name and email, changes nothing and
      returns the user the first call left in the store. */
  lemma CreateUserIdempotent(s: State, id: string, name: string, email: string, name2: string, email2: string)
    requires |id| > 0 && |name| > 0 && |email| > 0 && |name2| > 0 && |email2| > 0
    ensures var (s1, o1) := CreateUser(s, id, name, email);
            CreateUser(s1, id, name2, email2) == (s1, CreateOutcome(false, o1.user))
  {
    var (s1, o1) := CreateUser(s, id, name, email);
    assert HasUser(s1, id) by {
      if !HasUser(s, id) {
        assert s1.users[|s.users|].id == id;
      }
    }
    if !HasUser(s, id) {
      assert !HasKey(s.users, UserId, id);
      assert IndexOf(s.users, UserId, id).None?;
      var k := IndexOf(s1.users, UserId, id);
      assert k == Some(|s.users|) by {
        assert forall j :: 0 <= j < |s.users| ==> UserId(s1.users[j]) != id by {
          assert forall j :: 0 <= j < |s.users| ==> s1.users[j] == s.users[j];
        }
      }
    }
  }

  /** Entry `k` of page `page` is the item at position `(page - 1) * limit + k` of the history,
      and a page that starts inside the history is counted in `pages`. With `ItemOnPage` this puts
      every transaction of `GetTransactions`' history on exactly one page. */
  lemma PageEntry(h: seq<Transaction>, page: nat, limit: nat, k: nat)
    requires page >= 1 && limit >= 1 && k < limit
    requires (page - 1) * limit + k < |h|
    ensures page <= Paginate(h, page, limit).pages
    ensures k < |Paginate(h, page, limit).transactions|
    ensures Paginate(h, page, limit).transactions[k] == h[(page - 1) * limit + k]
  {
    var skip := (page - 1) * limit;
    PageWithinCount(|h|, limit, page);
    assert |Paginate(h, page, limit).transactions| == Min(limit, |h| - skip);
  }

  /** Every position `i` of the history is entry `i % limit` of page `i / limit + 1`. */
  lemma ItemOnPage(h: seq<Transaction>, limit: nat, i: nat)
    requires limit >= 1 && i < |h|
    ensures i / limit + 1 <= Paginate(h, i / limit + 1, limit).pages
    ensures i % limit < |Paginate(h, i / limit + 1, limit).transactions|
    ensures Paginate(h, i / limit + 1, limit).transactions[i % limit] == h[i]
  {
    assert (i / limit) * limit + i % limit == i;
    PageEntry(h, i / limit + 1, limit, i % limit);
  }

  /** The system total: in a valid store the stored balances add up to all points ever earned
      minus all points ever redeemed. */
  lemma SystemBalance(s: State)
    requires Valid(s)
    ensures Sum(s.rewards, RecordPoints) == Sum(s.transactions, TxPoints) - Sum(s.redemptions, RedPoints)
  {
    var keys := Project(s.rewards, RecordUser);
    OwnersAmongRecords(s);
    UniqueProject(s.rewards, RecordUser);
    GroupSum(keys, s.transactions, TxUser, TxPoints);
    GroupSum(keys, s.redemptions, RedUser, RedPoints);
    RecordsSum(s, s.rewards);
  }

  /** As the service computes it, the summary's net subtracts every redemption twice: the stored
      balances already exclude the redeemed points. */
  lemma SummaryNetAsWritten(s: State)
    requires Valid(s)
    ensures GetDatabaseSummary(s).netPointsAvailable
            == Sum(s.transactions, TxPoints) - 2 * Sum(s.redemptions, RedPoints)
  {
    SystemBalance(s);
  }

  /** With the net taken as earned minus redeemed, it is the total of the stored balances, and
      it is never negative while no balance is. */
  lemma CorrectedNetIsBalance(s: State)
    requires Valid(s)
    ensures CorrectedDatabaseSummary(s).netPointsAvailable == Sum(s.rewards, RecordPoints)
    ensures NonNegative(s.rewards) ==> CorrectedDatabaseSummary(s).netPointsAvailable >= 0
  {
    SystemBalance(s);
    if NonNegative(s.rewards) {
      SumNonNegative(s.rewards);
    }
  }

  lemma {:induction false} SumNonNegative(rw: seq<RewardRecord>)
    requires NonNegative(rw)
    ensures Sum(rw, RecordPoints) >= 0
    decreases |rw|
  {
    if |rw| > 0 {
      SumNonNegative(rw[1..]);
    }
  }

  lemma OwnersAmongRecords(s: State)
    requires HistoryOwned(s)
    ensures forall i :: 0 <= i < |s.transactions| ==> TxUser(s.transactions[i]) in Project(s.rewards, RecordUser)
    ensures forall i :: 0 <= i < |s.redemptions| ==> RedUser(s.redemptions[i]) in Project(s.rewards, RecordUser)
  {
    var keys := Project(s.rewards, RecordUser);
    forall i | 0 <= i < |s.transactions| ensures TxUser(s.transactions[i]) in keys {
      assert HasRecord(s.rewards, s.transactions[i].userId);
      var j :| 0 <= j < |s.rewards| && s.rewards[j].userId == s.transactions[i].userId;
      assert keys[j] == s.transactions[i].userId;
    }
    forall i | 0 <= i < |s.redemptions| ensures RedUser(s.redemptions[i]) in keys {
      assert HasRecord(s.rewards, s.redemptions[i].userId);
      var j :| 0 <= j < |s.rewards| && s.rewards[j].userId == s.redemptions[i].userId;
      assert keys[j] == s.redemptions[i].userId;
    }
  }

  lemma UniqueProject<T, K>(s: seq<T>, key: T -> K)
    requires UniqueKeys(s, key)
    ensures NoDup(Project(s, key))
  {
  }

  lemma {:induction false} RecordsSum(s: State, rw: seq<RewardRecord>)
    requires forall i :: 0 <= i < |rw| ==>
               rw[i].totalPoints == Earned(s, rw[i].userId) - Redeemed(s, rw[i].userId)
    ensures Sum(rw, RecordPoints)
            == SumByKeys(Project(rw, RecordUser), s.transactions, TxUser, TxPoints)
               - SumByKeys(Project(rw, RecordUser), s.redemptions, RedUser, RedPoints)
    decreases |rw|
  {
    if |rw| > 0 {
      RecordsSum(s, rw[1..]);
      assert Project(rw, RecordUser)[1..] == Project(rw[1..], RecordUser);
    }
  }
}
