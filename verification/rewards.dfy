/** The rewards service: balance queries, transaction history, redemption, earning points,
    user creation, the reward catalog and the administrative views. Each operation takes the
    store and, when it changes it, returns the new store with its output. An operation that
    fails returns only the error, so the store after a failure is the store before it. */
module Rewards {
  import opened Results
  import opened Seqs
  import opened Sums
  import opened Sorting
  import opened Strings
  import opened Paging
  import opened Store

  /** The business-rule errors the service raises. */
  datatype Error =
    | UserNotFound(userId: string)
    | InsufficientPoints(required: int, available: int)

  /** The display multiplier: 1 for everyone, 3/2 for users the email heuristic calls premium. */
  datatype Multiplier = Standard | Premium {
    function Factor(): (q: Ratio)
      ensures q.den > 0
      ensures this == Premium <==> 2 * q.num == 3 * q.den
      ensures this == Standard ==> q.num == q.den
    {
      match this
      case Standard => Ratio(1, 1)
      case Premium => Ratio(3, 2)
    }
  }

  datatype PointsView = PointsView(totalPoints: int, multiplier: Multiplier)

  datatype TransactionPage = TransactionPage(
    transactions: seq<Transaction>, page: nat, limit: nat, total: nat, pages: nat)

  datatype RedemptionReceipt = RedemptionReceipt(
    id: nat, pointsRedeemed: int, rewardType: string, timestamp: nat, remainingPoints: int)

  datatype PointsReceipt = PointsReceipt(
    transactionId: nat, pointsEarned: int, category: string, timestamp: nat, newBalance: int)

  /** `created` tells the "User created successfully" reply from "User already exists". */
  datatype CreateOutcome = CreateOutcome(created: bool, user: User)

  datatype RewardOption = RewardOption(rewardType: string, name: string, pointsRequired: nat, value: nat)

  /** The email heuristic for premium users, stated on occurrences. */
  ghost predicate PremiumEmail(email: string) {
    ContainsSub(email, "premium") || ContainsSub(email, "vip")
  }

  function IsPremium(email: string): (b: bool)
    ensures b <==> PremiumEmail(email)
  {
    Includes(email, "premium") || Includes(email, "vip")
  }

  /** The current balance of a user and the display multiplier. */
  function GetRewardPoints(s: State, userId: string): (r: Result<PointsView, Error>)
    ensures r.Err? <==> !HasUser(s, userId)
    ensures r.Err? ==> r.error == UserNotFound(userId)
    ensures r.Ok? ==> r.value.totalPoints == BalanceOf(s.rewards, userId)
    ensures r.Ok? ==> exists u :: u in s.users && u.id == userId
                                  && (r.value.multiplier == Premium <==> PremiumEmail(u.email))
  {
    match FindUser(s, userId)
    case None => Err(UserNotFound(userId))
    case Some(user) =>
      Ok(PointsView(BalanceOf(s.rewards, userId), if IsPremium(user.email) then Premium else Standard))
  }

  /** All transactions of a user, most recent first. */
  function History(s: State, userId: string): (h: seq<Transaction>)
    ensures NonIncreasing(h, TxTime)
    ensures multiset(h) == multiset(Filter(s.transactions, TxUser, userId))
    ensures forall t :: t in h ==> t in s.transactions && t.userId == userId
  {
    var mine := Filter(s.transactions, TxUser, userId);
    var h := SortDesc(mine, TxTime);
    SortDescElements(mine, TxTime);
    h
  }

  function Min(a: int, b: int): int { if a <= b then a else b }

  const DefaultPage: nat := 1
  const DefaultLimit: nat := 5

  /** Page `page` of `h` with `limit` items per page, and the page metadata. */
  function Paginate(h: seq<Transaction>, page: nat, limit: nat): (r: TransactionPage)
    requires page >= 1 && limit >= 1
    ensures r.page == page && r.limit == limit && r.total == |h|
    ensures r.pages * limit >= |h| && (r.pages == 0 || (r.pages - 1) * limit < |h|)
    ensures |r.transactions| <= limit
    ensures (page - 1) * limit < |h| ==> |r.transactions| == Min(limit, |h| - (page - 1) * limit)
    ensures forall k :: 0 <= k < |r.transactions| ==>
              (page - 1) * limit + k < |h| && r.transactions[k] == h[(page - 1) * limit + k]
    ensures NonIncreasing(h, TxTime) ==> NonIncreasing(r.transactions, TxTime)
  {
    var w := Window(h, (page - 1) * limit, limit);
    assert NonIncreasing(h, TxTime) ==> NonIncreasing(w, TxTime) by {
      if NonIncreasing(h, TxTime) {
        forall i, j | 0 <= i < j < |w| ensures TxTime(w[i]) >= TxTime(w[j]) {
          assert w[i] == h[(page - 1) * limit + i] && w[j] == h[(page - 1) * limit + j];
        }
      }
    }
    TransactionPage(w, page, limit, |h|, PageCount(|h|, limit))
  }

  /** One page of a user's transaction history, newest first, with the page metadata.
      `page` and `limit` default to 1 and 5 when absent. */
  function GetTransactions(s: State, userId: string, page: Option<nat>, limit: Option<nat>)
    : (r: Result<TransactionPage, Error>)
    requires page.Some? ==> page.value >= 1
    requires limit.Some? ==> limit.value >= 1
    ensures r.Err? <==> !HasUser(s, userId)
    ensures r.Err? ==> r.error == UserNotFound(userId)
    ensures r.Ok? ==> r.value.page == (if page.Some? then page.value else 1)
    ensures r.Ok? ==> r.value.limit == (if limit.Some? then limit.value else 5)
    ensures r.Ok? ==> r.value == Paginate(History(s, userId), r.value.page, r.value.limit)
    ensures r.Ok? ==> r.value.total == |Filter(s.transactions, TxUser, userId)|
  {
    if !FindUser(s, userId).Some? then Err(UserNotFound(userId))
    else
      var p := match page case Some(n) => n case None => DefaultPage;
      var l := match limit case Some(n) => n case None => DefaultLimit;
      var h := History(s, userId);
      assert |h| == |multiset(h)|;
      Ok(Paginate(h, p, l))
  }

  /** The store after saving `record` as its user's balance, with history `txs` and `reds`. */
  function Saved(s: State, record: RewardRecord, txs: seq<Transaction>, reds: seq<Redemption>): State {
    State(s.users, SetBalance(s.rewards, record.userId, record.totalPoints, record.updatedAt), txs, reds)
  }

  /** The store after recording transaction `t` and raising its user's balance by its points. */
  function Earn(s: State, t: Transaction): State {
    Saved(s, RewardRecord(t.userId, BalanceOf(s.rewards, t.userId) + t.pointsEarned, t.timestamp),
          s.transactions + [t], s.redemptions)
  }

  /** The store after recording redemption `d` and lowering its user's balance by its points. */
  function Spend(s: State, d: Redemption): State {
    Saved(s, RewardRecord(d.userId, BalanceOf(s.rewards, d.userId) - d.pointsRedeemed, d.timestamp),
          s.transactions, s.redemptions + [d])
  }

  /** Exchanges points for a reward. The balance check comes before any write: a user without a
      balance record counts as having 0 points, and a refused redemption creates neither a
      redemption nor a balance record. */
  function RedeemReward(s: State, userId: string, rewardType: string, pointsToRedeem: int, now: nat)
    : (r: Result<(State, RedemptionReceipt), Error>)
    requires pointsToRedeem >= 1
    requires |rewardType| > 0
    ensures !HasUser(s, userId) ==> r == Err(UserNotFound(userId))
    ensures HasUser(s, userId) && BalanceOf(s.rewards, userId) < pointsToRedeem ==>
              r == Err(InsufficientPoints(pointsToRedeem, BalanceOf(s.rewards, userId)))
    ensures HasUser(s, userId) && BalanceOf(s.rewards, userId) >= pointsToRedeem ==> r.Ok?
    ensures r.Ok? ==>
              var (s', receipt) := r.value;
              && s'.users == s.users
              && s'.transactions == s.transactions
              && s'.redemptions == s.redemptions
                   + [Redemption(|s.redemptions|, userId, pointsToRedeem, rewardType, now)]
              && BalanceOf(s'.rewards, userId) == BalanceOf(s.rewards, userId) - pointsToRedeem
              && BalanceOf(s'.rewards, userId) >= 0
              && HasRecord(s'.rewards, userId)
              && s'.rewards == SetBalance(s.rewards, userId, BalanceOf(s'.rewards, userId), now)
              && (forall v :: v != userId ==> BalanceOf(s'.rewards, v) == BalanceOf(s.rewards, v))
              && receipt == RedemptionReceipt(|s.redemptions|, pointsToRedeem, rewardType, now,
                                              BalanceOf(s'.rewards, userId))
  {
    if !FindUser(s, userId).Some? then Err(UserNotFound(userId))
    else
      var balance := BalanceOf(s.rewards, userId);
      if balance < pointsToRedeem then Err(InsufficientPoints(pointsToRedeem, balance))
      else
        var id := |s.redemptions|;
        var redemption := Redemption(id, userId, pointsToRedeem, rewardType, now);
        Ok((Spend(s, redemption), RedemptionReceipt(id, pointsToRedeem, rewardType, now, balance - pointsToRedeem)))
  }

  /** Records a point-earning transaction and raises the user's balance, creating the balance
      record at 0 first when there is none. */
  function AddPoints(s: State, userId: string, points: int, category: string, amount: int, now: nat)
    : (r: Result<(State, PointsReceipt), Error>)
    requires points != 0 && |category| > 0 && amount != 0
    ensures r.Err? <==> !HasUser(s, userId)
    ensures r.Err? ==> r.error == UserNotFound(userId)
    ensures r.Ok? ==>
              var (s', receipt) := r.value;
              && s'.users == s.users
              && s'.redemptions == s.redemptions
              && s'.transactions == s.transactions
                   + [Transaction(|s.transactions|, userId, amount, category, points, now)]
              && BalanceOf(s'.rewards, userId) == BalanceOf(s.rewards, userId) + points
              && HasRecord(s'.rewards, userId)
              && s'.rewards == SetBalance(s.rewards, userId, BalanceOf(s'.rewards, userId), now)
              && (forall v :: v != userId ==> BalanceOf(s'.rewards, v) == BalanceOf(s.rewards, v))
              && receipt == PointsReceipt(|s.transactions|, points, category, now,
                                          BalanceOf(s'.rewards, userId))
  {
    if !FindUser(s, userId).Some? then Err(UserNotFound(userId))
    else
      var id := |s.transactions|;
      var transaction := Transaction(id, userId, amount, category, points, now);
      Ok((Earn(s, transaction), PointsReceipt(id, points, category, now, BalanceOf(s.rewards, userId) + points)))
  }

  /** Registers a user; an id that is already taken returns the existing user and changes nothing. */
  function CreateUser(s: State, id: string, name: string, email: string): (r: (State, CreateOutcome))
    requires |id| > 0 && |name| > 0 && |email| > 0
    ensures HasUser(s, id) ==> r.0 == s && !r.1.created && r.1.user in s.users && r.1.user.id == id
    ensures !HasUser(s, id) ==>
              && r.0 == s.(users := s.users + [User(id, name, email)])
              && r.1 == CreateOutcome(true, User(id, name, email))
  {
    match FindUser(s, id)
    case Some(existing) => (s, CreateOutcome(false, existing))
    case None =>
      var user := User(id, name, email);
      (s.(users := s.users + [user]), CreateOutcome(true, user))
  }

  /** The fixed reward catalog, in display order. */
  function GetRewardOptions(): (r: seq<RewardOption>)
    ensures |r| == 3
    ensures Project(r, (o: RewardOption) => o.rewardType) == ["cashback", "voucher", "gift_card"]
    ensures Project(r, (o: RewardOption) => o.pointsRequired) == [1000, 500, 2000]
    ensures forall o :: o in r ==> o.pointsRequired == 100 * o.value
  {
    [ RewardOption("cashback", "Cashback", 1000, 10),
      RewardOption("voucher", "Gift Voucher", 500, 5),
      RewardOption("gift_card", "Gift Card", 2000, 20) ]
  }

  datatype UserList = UserList(count: nat, users: seq<User>)
  datatype RewardView = RewardView(userId: string, totalPoints: int)
  datatype RewardList = RewardList(count: nat, rewards: seq<RewardView>)
  datatype TransactionList = TransactionList(count: nat, transactions: seq<Transaction>)
  datatype RedemptionList = RedemptionList(count: nat, redemptions: seq<Redemption>)

  /** Collection sizes and point totals for the administrative summary. */
  datatype DatabaseSummary = DatabaseSummary(
    totalUsers: nat, totalRewardRecords: nat, totalTransactions: nat, totalRedemptions: nat,
    totalPointsInSystem: int, totalPointsRedeemed: int, netPointsAvailable: int)

  /** Every user, in store order. */
  function GetAllUsers(s: State): (r: UserList)
    ensures r.count == |r.users|
    ensures r.users == s.users
  {
    UserList(|s.users|, s.users)
  }

  /** Every balance record, as user id and points, in store order. */
  function GetAllRewards(s: State): (r: RewardList)
    ensures r.count == |r.rewards| == |s.rewards|
    ensures forall i :: 0 <= i < |s.rewards| ==>
              r.rewards[i] == RewardView(s.rewards[i].userId, s.rewards[i].totalPoints)
  {
    var views := Project(s.rewards, (w: RewardRecord) => RewardView(w.userId, w.totalPoints));
    RewardList(|views|, views)
  }

  /** Every transaction, most recent first. */
  function GetAllTransactions(s: State): (r: TransactionList)
    ensures r.count == |r.transactions| == |s.transactions|
    ensures multiset(r.transactions) == multiset(s.transactions)
    ensures NonIncreasing(r.transactions, TxTime)
  {
    var sorted := SortDesc(s.transactions, TxTime);
    SortDescElements(s.transactions, TxTime);
    TransactionList(|sorted|, sorted)
  }

  /** Every redemption, most recent first. */
  function GetAllRedemptions(s: State): (r: RedemptionList)
    ensures r.count == |r.redemptions| == |s.redemptions|
    ensures multiset(r.redemptions) == multiset(s.redemptions)
    ensures NonIncreasing(r.redemptions, RedTime)
  {
    var sorted := SortDesc(s.redemptions, RedTime);
    SortDescElements(s.redemptions, RedTime);
    RedemptionList(|sorted|, sorted)
  }

  /** The administrative summary as the service computes it: the collection sizes, the sum of the
      stored balances, the sum of the redeemed points (each 0 over an empty collection), and
      their difference. */
  function GetDatabaseSummary(s: State): (r: DatabaseSummary)
    ensures r.totalUsers == GetAllUsers(s).count
    ensures r.totalRewardRecords == GetAllRewards(s).count
    ensures r.totalTransactions == GetAllTransactions(s).count
    ensures r.totalRedemptions == GetAllRedemptions(s).count
    ensures r.totalPointsInSystem == Sum(GetAllRewards(s).rewards, (w: RewardView) => w.totalPoints)
    ensures r.totalPointsRedeemed == Sum(GetAllRedemptions(s).redemptions, RedPoints)
    ensures r.netPointsAvailable == r.totalPointsInSystem - r.totalPointsRedeemed
  {
    var inSystem := Sum(s.rewards, RecordPoints);
    var redeemed := Sum(s.redemptions, RedPoints);
    RewardViewsSum(s.rewards);
    SumPermutation(GetAllRedemptions(s).redemptions, s.redemptions, RedPoints);
    DatabaseSummary(|s.users|, |s.rewards|, |s.transactions|, |s.redemptions|,
                    inSystem, redeemed, inSystem - redeemed)
  }

  /** The points users can still redeem: every point earned minus every point redeemed. */
  function NetPointsAvailable(s: State): int {
    Sum(s.transactions, TxPoints) - Sum(s.redemptions, RedPoints)
  }

  /** The administrative summary with `netPointsAvailable` taken as the points still available,
      rather than the stored balances minus the redeemed points a second time. */
  function CorrectedDatabaseSummary(s: State): DatabaseSummary {
    GetDatabaseSummary(s).(netPointsAvailable := NetPointsAvailable(s))
  }

  lemma {:induction false} RewardViewsSum(rw: seq<RewardRecord>)
    ensures Sum(Project(rw, (w: RewardRecord) => RewardView(w.userId, w.totalPoints)), (w: RewardView) => w.totalPoints)
            == Sum(rw, RecordPoints)
    decreases |rw|
  {
    if |rw| > 0 {
      RewardViewsSum(rw[1..]);
    }
  }
}
