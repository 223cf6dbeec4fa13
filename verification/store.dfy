/** The four collections of the rewards store and the invariant the service keeps on them. */
module Store {
  import opened Results
  import opened Seqs
  import opened Sums

  /** A registered user, identified by an externally assigned id. */
  datatype User = User(id: string, name: string, email: string)

  /** One point-earning event; `amount` is in whole currency sub-units. */
  datatype Transaction = Transaction(
    id: nat, userId: string, amount: int, category: string, pointsEarned: int, timestamp: nat)

  /** The running balance of one user; at most one record per user. */
  datatype RewardRecord = RewardRecord(userId: string, totalPoints: int, updatedAt: nat)

  /** One completed exchange of points for a reward. */
  datatype Redemption = Redemption(
    id: nat, userId: string, pointsRedeemed: int, rewardType: string, timestamp: nat)

  /** The store: every collection in insertion order. */
  datatype State = State(
    users: seq<User>,
    rewards: seq<RewardRecord>,
    transactions: seq<Transaction>,
    redemptions: seq<Redemption>)

  /** An exact fraction, used where the service computes with floating point. */
  datatype Ratio = Ratio(num: int, den: nat)

  const Empty := State([], [], [], [])

  function UserId(u: User): string { u.id }
  function RecordUser(r: RewardRecord): string { r.userId }
  function RecordPoints(r: RewardRecord): int { r.totalPoints }
  function TxUser(t: Transaction): string { t.userId }
  function TxCategory(t: Transaction): string { t.category }
  function TxPoints(t: Transaction): int { t.pointsEarned }
  function TxAmount(t: Transaction): int { t.amount }
  function TxTime(t: Transaction): int { t.timestamp }
  function RedUser(r: Redemption): string { r.userId }
  function RedPoints(r: Redemption): int { r.pointsRedeemed }
  function RedTime(r: Redemption): int { r.timestamp }

  /** Some user has id `id`. */
  ghost predicate HasUser(s: State, id: string) {
    HasKey(s.users, UserId, id)
  }

  /** `userId` has a balance record. */
  ghost predicate HasRecord(rewards: seq<RewardRecord>, userId: string) {
    HasKey(rewards, RecordUser, userId)
  }

  /** The user with id `id`, when there is one. */
  function FindUser(s: State, id: string): (r: Option<User>)
    ensures r.Some? ==> r.value in s.users && r.value.id == id
    ensures r.None? <==> !HasUser(s, id)
  {
    match IndexOf(s.users, UserId, id)
    case None => None
    case Some(i) => Some(s.users[i])
  }

  /** The stored balance of `userId`; a user without a record reads as 0 and no record is made. */
  function BalanceOf(rewards: seq<RewardRecord>, userId: string): (p: int)
    ensures !HasRecord(rewards, userId) ==> p == 0
    ensures HasRecord(rewards, userId) ==>
      exists i :: 0 <= i < |rewards| && rewards[i].userId == userId && rewards[i].totalPoints == p
  {
    match IndexOf(rewards, RecordUser, userId)
    case None => 0
    case Some(i) => rewards[i].totalPoints
  }

  /** `r` is `rewards` with `record` saved in place or appended: every other record stays where
      it was, no user loses their record, and one record per user stays one record per user. */
  ghost predicate SavedBalance(rewards: seq<RewardRecord>, r: seq<RewardRecord>, record: RewardRecord) {
    && (forall i :: 0 <= i < |r| ==> r[i] == record || (i < |rewards| && r[i] == rewards[i]))
    && (forall v :: HasRecord(rewards, v) ==> HasRecord(r, v))
    && (UniqueKeys(rewards, RecordUser) ==> UniqueKeys(r, RecordUser))
  }

  /** Saves `points` as the balance of `userId` at time `now`: the existing record is updated in
      place, or a record is created when there is none. */
  function SetBalance(rewards: seq<RewardRecord>, userId: string, points: int, now: nat)
    : (r: seq<RewardRecord>)
    ensures BalanceOf(r, userId) == points && HasRecord(r, userId)
    ensures forall v :: v != userId ==> BalanceOf(r, v) == BalanceOf(rewards, v)
  {
    var record := RewardRecord(userId, points, now);
    match IndexOf(rewards, RecordUser, userId)
    case None =>
      AppendRecord(rewards, record);
      rewards + [record]
    case Some(i) =>
      ReplaceRecord(rewards, i, record);
      rewards[i := record]
  }

  /** SetBalance touches nothing but the one record, creating it when absent, and keeps one
      record per user. */
  lemma SetBalanceSaves(rewards: seq<RewardRecord>, userId: string, points: int, now: nat)
    ensures SavedBalance(rewards, SetBalance(rewards, userId, points, now), RewardRecord(userId, points, now))
  {
    var record := RewardRecord(userId, points, now);
    match IndexOf(rewards, RecordUser, userId)
    case None => AppendRecord(rewards, record);
    case Some(i) => ReplaceRecord(rewards, i, record);
  }

  lemma AppendRecord(rewards: seq<RewardRecord>, record: RewardRecord)
    requires !HasRecord(rewards, record.userId)
    ensures SavedBalance(rewards, rewards + [record], record)
    ensures BalanceOf(rewards + [record], record.userId) == record.totalPoints
    ensures HasRecord(rewards + [record], record.userId)
    ensures forall v :: v != record.userId ==> BalanceOf(rewards + [record], v) == BalanceOf(rewards, v)
  {
    var r := rewards + [record];
    forall v | HasRecord(rewards, v) ensures HasRecord(r, v) {
      var i :| 0 <= i < |rewards| && rewards[i].userId == v;
      assert r[i].userId == v;
    }
    assert r[|rewards|] == record;
    assert HasRecord(r, record.userId);
    forall v | v != record.userId ensures BalanceOf(r, v) == BalanceOf(rewards, v) {
      FirstIndexAppend(rewards, record, v);
    }
    FirstIndexAppend(rewards, record, record.userId);
  }

  lemma ReplaceRecord(rewards: seq<RewardRecord>, i: nat, record: RewardRecord)
    requires IndexOf(rewards, RecordUser, record.userId) == Some(i)
    ensures SavedBalance(rewards, rewards[i := record], record)
    ensures BalanceOf(rewards[i := record], record.userId) == record.totalPoints
    ensures HasRecord(rewards[i := record], record.userId)
    ensures forall v :: v != record.userId ==> BalanceOf(rewards[i := record], v) == BalanceOf(rewards, v)
  {
    var r := rewards[i := record];
    forall v | HasRecord(rewards, v) ensures HasRecord(r, v) {
      var j :| 0 <= j < |rewards| && rewards[j].userId == v;
      assert r[j].userId == v;
    }
    assert r[i] == record;
    assert HasRecord(rewards, record.userId);
    assert forall j :: 0 <= j < |r| ==> r[j] == record || (j < |rewards| && r[j] == rewards[j]);
    assert forall j :: 0 <= j < |r| ==> RecordUser(r[j]) == RecordUser(rewards[j]);
    FirstIndexUpdate(rewards, i, record);
    forall v | v != record.userId ensures BalanceOf(r, v) == BalanceOf(rewards, v) {
      assert IndexOf(r, RecordUser, v) == IndexOf(rewards, RecordUser, v);
    }
    assert BalanceOf(r, record.userId) == record.totalPoints by {
      assert IndexOf(r, RecordUser, record.userId) == Some(i);
    }
    assert UniqueKeys(rewards, RecordUser) ==> UniqueKeys(r, RecordUser);
  }

  /** Appending a record changes no first match except for a key that had none. */
  lemma FirstIndexAppend(rewards: seq<RewardRecord>, record: RewardRecord, v: string)
    requires !HasRecord(rewards, record.userId)
    ensures v != record.userId ==> IndexOf(rewards + [record], RecordUser, v) == IndexOf(rewards, RecordUser, v)
    ensures IndexOf(rewards + [record], RecordUser, record.userId) == Some(|rewards|)
  {
    IndexOfAppend(rewards, record, RecordUser, v);
    IndexOfAppend(rewards, record, RecordUser, record.userId);
  }

  /** Replacing the first record of a key keeps every key's first match where it was. */
  lemma FirstIndexUpdate(rewards: seq<RewardRecord>, i: nat, record: RewardRecord)
    requires IndexOf(rewards, RecordUser, record.userId) == Some(i)
    ensures forall v :: IndexOf(rewards[i := record], RecordUser, v) == IndexOf(rewards, RecordUser, v)
  {
    var r := rewards[i := record];
    forall v
      ensures IndexOf(r, RecordUser, v) == IndexOf(rewards, RecordUser, v)
    {
      assert forall j :: 0 <= j < |r| ==> RecordUser(r[j]) == RecordUser(rewards[j]);
      IndexOfSameKeys(r, rewards, RecordUser, v);
    }
  }

  /** First-match lookup only looks at keys. */
  lemma {:induction false} IndexOfSameKeys<T, K>(a: seq<T>, b: seq<T>, key: T -> K, k: K)
    requires |a| == |b|
    requires forall j :: 0 <= j < |a| ==> key(a[j]) == key(b[j])
    ensures IndexOf(a, key, k) == IndexOf(b, key, k)
    decreases |a|
  {
    if |a| > 0 {
      IndexOfSameKeys(a[1..], b[1..], key, k);
    }
  }

  /** Σ pointsEarned over the transactions of `userId`. */
  function Earned(s: State, userId: string): int {
    Sum(Filter(s.transactions, TxUser, userId), TxPoints)
  }

  /** Σ pointsRedeemed over the redemptions of `userId`. */
  function Redeemed(s: State, userId: string): int {
    Sum(Filter(s.redemptions, RedUser, userId), RedPoints)
  }

  /** Each transaction's and redemption's id is its position in its collection. */
  ghost predicate IdsArePositions(s: State) {
    && (forall i :: 0 <= i < |s.transactions| ==> s.transactions[i].id == i)
    && (forall i :: 0 <= i < |s.redemptions| ==> s.redemptions[i].id == i)
  }

  /** Every balance record belongs to a registered user. */
  ghost predicate RecordsOwned(s: State) {
    forall i :: 0 <= i < |s.rewards| ==> HasUser(s, s.rewards[i].userId)
  }

  /** Every transaction and redemption belongs to a user with a balance record. */
  ghost predicate HistoryOwned(s: State) {
    && (forall i :: 0 <= i < |s.transactions| ==> HasRecord(s.rewards, s.transactions[i].userId))
    && (forall i :: 0 <= i < |s.redemptions| ==> HasRecord(s.rewards, s.redemptions[i].userId))
  }

  /** Each record's balance equals what its user earned minus what its user redeemed. */
  ghost predicate BalancesMatchHistory(s: State) {
    forall i :: 0 <= i < |s.rewards| ==>
      s.rewards[i].totalPoints == Earned(s, s.rewards[i].userId) - Redeemed(s, s.rewards[i].userId)
  }

  /** The invariant every service operation keeps: user ids and balance owners are unique, ids
      are positions, every record and history entry has its owner, and the balances agree with
      the history. */
  ghost predicate Valid(s: State) {
    && UniqueKeys(s.users, UserId)
    && UniqueKeys(s.rewards, RecordUser)
    && IdsArePositions(s)
    && RecordsOwned(s)
    && HistoryOwned(s)
    && BalancesMatchHistory(s)
  }

  /** No stored balance is negative. */
  ghost predicate NonNegative(rewards: seq<RewardRecord>) {
    forall i :: 0 <= i < |rewards| ==> rewards[i].totalPoints >= 0
  }

  /** The ledger identity: in a valid store every user's balance, with a record or without,
      equals the points they earned minus the points they redeemed. */
  lemma Ledger(s: State, userId: string)
    requires Valid(s)
    ensures BalanceOf(s.rewards, userId) == Earned(s, userId) - Redeemed(s, userId)
  {
    if !HasRecord(s.rewards, userId) {
      forall i | 0 <= i < |s.transactions|
        ensures TxUser(s.transactions[i]) != userId
      {
        assert HasRecord(s.rewards, s.transactions[i].userId);
      }
      forall i | 0 <= i < |s.redemptions|
        ensures RedUser(s.redemptions[i]) != userId
      {
        assert HasRecord(s.rewards, s.redemptions[i].userId);
      }
      FilterAbsent(s.transactions, TxUser, userId);
      FilterAbsent(s.redemptions, RedUser, userId);
    }
  }

  /** Every user's balance, with a record or without, is what they earned minus what they redeemed. */
  ghost predicate Balanced(s: State) {
    forall v :: BalanceOf(s.rewards, v) == Earned(s, v) - Redeemed(s, v)
  }

  lemma ValidBalanced(s: State)
    requires Valid(s)
    ensures Balanced(s)
  {
    forall v ensures BalanceOf(s.rewards, v) == Earned(s, v) - Redeemed(s, v) {
      Ledger(s, v);
    }
  }

  lemma EmptyValid()
    ensures Valid(Empty)
  {
  }
}
