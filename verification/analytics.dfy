/** The analytics service: the rewards distribution groups all transactions by category,
    totals each group, sorts the groups by points and sums the groups into a summary. */
module Analytics {
  import opened Seqs
  import opened Sums
  import opened Sorting
  import opened Store

  /** One category's totals, as the aggregation's group and projection stages emit them. The
      average is kept as the exact fraction `totalPoints / transactionCount`. */
  datatype CategoryStats = CategoryStats(
    category: string,
    totalPoints: int,
    totalAmount: int,
    transactionCount: nat,
    averagePointsPerTransaction: Ratio)

  datatype DistributionSummary = DistributionSummary(totalPoints: int, totalTransactions: int, categories: nat)

  datatype Distribution = Distribution(distribution: seq<CategoryStats>, summary: DistributionSummary)

  function StatsCategory(c: CategoryStats): string { c.category }
  function StatsPoints(c: CategoryStats): int { c.totalPoints }
  function StatsCount(c: CategoryStats): int { c.transactionCount }

  /** Counts an element once, as a `$sum: 1` accumulator. */
  function One<T>(x: T): int { 1 }

  lemma {:induction false} SumOnes<T>(s: seq<T>)
    ensures Sum(s, One) == |s|
    decreases |s|
  {
    if |s| > 0 {
      SumOnes(s[1..]);
    }
  }

  /** A key that occurs is selected at least once. */
  lemma FilterFinds<T(!new), K>(s: seq<T>, key: T -> K, k: K)
    requires HasKey(s, key, k)
    ensures |Filter(s, key, k)| >= 1
  {
    var i :| 0 <= i < |s| && key(s[i]) == k;
    FilterCount(s, key, k);
    assert s[i] in multiset(s);
    assert s[i] in multiset(Filter(s, key, k));
  }

  /** The group of one category that occurs among `transactions`: its point, amount and
      transaction totals, and the average points per transaction. */
  function GroupStats(transactions: seq<Transaction>, category: string): (c: CategoryStats)
    requires HasKey(transactions, TxCategory, category)
    ensures c.category == category
    ensures c.totalPoints == SumWhere(transactions, TxCategory, category, TxPoints)
    ensures c.totalAmount == SumWhere(transactions, TxCategory, category, TxAmount)
    ensures c.transactionCount == SumWhere(transactions, TxCategory, category, One<Transaction>)
    ensures c.transactionCount >= 1
    ensures c.averagePointsPerTransaction.den > 0
    ensures c.averagePointsPerTransaction.num * c.transactionCount
            == c.totalPoints * c.averagePointsPerTransaction.den
  {
    var group := Filter(transactions, TxCategory, category);
    FilterFinds(transactions, TxCategory, category);
    SumFilter(transactions, TxCategory, category, TxPoints);
    SumFilter(transactions, TxCategory, category, TxAmount);
    SumFilter(transactions, TxCategory, category, One<Transaction>);
    SumOnes(group);
    CategoryStats(category, Sum(group, TxPoints), Sum(group, TxAmount), |group|,
                  Ratio(Sum(group, TxPoints), |group|))
  }

  /** The groups of `categories`, in that order. */
  function Groups(transactions: seq<Transaction>, categories: seq<string>): (r: seq<CategoryStats>)
    requires forall k :: k in categories ==> HasKey(transactions, TxCategory, k)
    ensures |r| == |categories|
    ensures forall i :: 0 <= i < |r| ==> r[i] == GroupStats(transactions, categories[i])
    decreases |categories|
  {
    if |categories| == 0 then []
    else [GroupStats(transactions, categories[0])] + Groups(transactions, categories[1..])
  }

  /** One group per distinct category, in order of last occurrence. */
  function CategoryGroups(transactions: seq<Transaction>): seq<CategoryStats> {
    Groups(transactions, DistinctKeys(transactions, TxCategory))
  }

  /** The rewards distribution over all transactions: the category groups, largest point total
      first, and the summary folded over the entries. */
  function GetRewardsDistribution(transactions: seq<Transaction>): (r: Distribution)
    ensures NonIncreasing(r.distribution, StatsPoints)
    ensures multiset(r.distribution) == multiset(CategoryGroups(transactions))
  {
    var sorted := SortDesc(CategoryGroups(transactions), StatsPoints);
    Distribution(sorted, DistributionSummary(Sum(sorted, StatsPoints), Sum(sorted, StatsCount), |sorted|))
  }

  /** Every group is the group of one of the requested categories. */
  lemma GroupsMembers(transactions: seq<Transaction>, categories: seq<string>)
    requires forall k :: k in categories ==> HasKey(transactions, TxCategory, k)
    ensures forall c :: c in Groups(transactions, categories) ==>
              c.category in categories && c == GroupStats(transactions, c.category)
  {
    var g := Groups(transactions, categories);
    forall c | c in g
      ensures c.category in categories && c == GroupStats(transactions, c.category)
    {
      var i :| 0 <= i < |g| && g[i] == c;
    }
  }

  /** Each entry of the distribution is the full group of a category that occurs. */
  lemma DistributionEntries(transactions: seq<Transaction>)
    ensures forall c :: c in GetRewardsDistribution(transactions).distribution ==>
              HasKey(transactions, TxCategory, c.category) && c == GroupStats(transactions, c.category)
  {
    var d := GetRewardsDistribution(transactions).distribution;
    GroupsMembers(transactions, DistinctKeys(transactions, TxCategory));
    forall c | c in d
      ensures HasKey(transactions, TxCategory, c.category) && c == GroupStats(transactions, c.category)
    {
      assert c in multiset(d);
      assert c in CategoryGroups(transactions);
    }
  }

  /** Every category that occurs among the transactions has an entry. */
  lemma DistributionCovers(transactions: seq<Transaction>)
    ensures forall t :: t in transactions ==>
              exists c :: c in GetRewardsDistribution(transactions).distribution && c.category == t.category
  {
    var keys := DistinctKeys(transactions, TxCategory);
    var groups := CategoryGroups(transactions);
    var d := GetRewardsDistribution(transactions).distribution;
    forall t | t in transactions
      ensures exists c :: c in d && c.category == t.category
    {
      var i :| 0 <= i < |transactions| && transactions[i] == t;
      CategoriesKnown(transactions);
      var j :| 0 <= j < |keys| && keys[j] == TxCategory(transactions[i]);
      assert groups[j] in multiset(d);
    }
  }

  /** No category has two entries. */
  lemma DistributionUnique(transactions: seq<Transaction>)
    ensures UniqueKeys(GetRewardsDistribution(transactions).distribution, StatsCategory)
  {
    var d := GetRewardsDistribution(transactions).distribution;
    DistributionEntries(transactions);
    GroupsUnique(transactions, DistinctKeys(transactions, TxCategory));
    NoDupPermutation(CategoryGroups(transactions), d);
    forall i, j | 0 <= i < j < |d|
      ensures StatsCategory(d[i]) != StatsCategory(d[j])
    {
      assert d[i] in d && d[j] in d;
    }
  }

  /** Every transaction's category is among the distinct categories. */
  lemma CategoriesKnown(transactions: seq<Transaction>)
    ensures forall i :: 0 <= i < |transactions| ==>
              TxCategory(transactions[i]) in DistinctKeys(transactions, TxCategory)
  {
    forall i | 0 <= i < |transactions|
      ensures TxCategory(transactions[i]) in DistinctKeys(transactions, TxCategory)
    {
      assert HasKey(transactions, TxCategory, TxCategory(transactions[i]));
    }
  }

  /** The summary's point total is the points of all transactions. */
  lemma DistributionPoints(transactions: seq<Transaction>)
    ensures GetRewardsDistribution(transactions).summary.totalPoints == Sum(transactions, TxPoints)
  {
    var keys := DistinctKeys(transactions, TxCategory);
    SumPermutation(CategoryGroups(transactions), GetRewardsDistribution(transactions).distribution, StatsPoints);
    GroupsSums(transactions, keys);
    CategoriesKnown(transactions);
    GroupSum(keys, transactions, TxCategory, TxPoints);
  }

  /** The summary counts every transaction once. */
  lemma DistributionCount(transactions: seq<Transaction>)
    ensures GetRewardsDistribution(transactions).summary.totalTransactions == |transactions|
  {
    var keys := DistinctKeys(transactions, TxCategory);
    SumPermutation(CategoryGroups(transactions), GetRewardsDistribution(transactions).distribution, StatsCount);
    GroupsSums(transactions, keys);
    CategoriesKnown(transactions);
    GroupSum(keys, transactions, TxCategory, One<Transaction>);
    SumOnes(transactions);
  }

  /** The summary has one category per distinct category among the transactions. */
  lemma DistributionCategories(transactions: seq<Transaction>)
    ensures GetRewardsDistribution(transactions).summary.categories
            == |set t | t in transactions :: t.category|
  {
    var keys := DistinctKeys(transactions, TxCategory);
    var d := GetRewardsDistribution(transactions).distribution;
    assert |d| == |multiset(d)| == |multiset(CategoryGroups(transactions))| == |keys|;
    NoDupCardinality(keys);
    CategorySet(transactions);
  }

  /** The distinct categories are the categories that occur. */
  lemma CategorySet(transactions: seq<Transaction>)
    ensures (set k | k in DistinctKeys(transactions, TxCategory)) == (set t | t in transactions :: t.category)
  {
    var keys := DistinctKeys(transactions, TxCategory);
    forall k | k in keys
      ensures k in (set t | t in transactions :: t.category)
    {
      var i :| 0 <= i < |transactions| && TxCategory(transactions[i]) == k;
    }
    CategoriesKnown(transactions);
  }

  /** The distribution is empty exactly when there are no transactions, and then every summary
      field is 0. */
  lemma DistributionEmpty(transactions: seq<Transaction>)
    ensures |GetRewardsDistribution(transactions).distribution| == 0 <==> |transactions| == 0
    ensures |transactions| == 0 ==>
              GetRewardsDistribution(transactions).summary == DistributionSummary(0, 0, 0)
  {
    DistributionCategories(transactions);
    DistributionPoints(transactions);
    DistributionCount(transactions);
    if |transactions| > 0 {
      assert transactions[0].category in (set t | t in transactions :: t.category);
    }
  }

  /** The groups' point and transaction totals are the per-category sums over the transactions. */
  lemma {:induction false} GroupsSums(transactions: seq<Transaction>, categories: seq<string>)
    requires forall k :: k in categories ==> HasKey(transactions, TxCategory, k)
    ensures Sum(Groups(transactions, categories), StatsPoints)
            == SumByKeys(categories, transactions, TxCategory, TxPoints)
    ensures Sum(Groups(transactions, categories), StatsCount)
            == SumByKeys(categories, transactions, TxCategory, One<Transaction>)
    decreases |categories|
  {
    if |categories| > 0 {
      var g := Groups(transactions, categories);
      assert g[1..] == Groups(transactions, categories[1..]);
      GroupsSums(transactions, categories[1..]);
      SumOnes(Filter(transactions, TxCategory, categories[0]));
    }
  }

  /** Distinct categories give distinct groups. */
  lemma GroupsUnique(transactions: seq<Transaction>, keys: seq<string>)
    requires forall k :: k in keys ==> HasKey(transactions, TxCategory, k)
    requires NoDup(keys)
    ensures NoDup(Groups(transactions, keys))
  {
    var g := Groups(transactions, keys);
    forall i, j | 0 <= i < j < |g|
      ensures g[i] != g[j]
    {
      assert g[i].category == keys[i] && g[j].category == keys[j];
    }
  }
}
