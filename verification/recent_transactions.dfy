/** The "recent transactions" card: the user's ten newest transactions as
    payer, each with its settled/total split counter and, unless it is the
    default, its description. */
module RecentTransactions {
  import opened Base
  import opened Ledger
  import ExpenseForm
  import ExpenseRecording

  datatype SplitSummary = SplitSummary(id: SplitId, amount: int, isSettled: bool, itemDescription: string)

  /** A transaction with its splits embedded, as the card's query returns it. */
  datatype TxView = TxView(
    id: TxId,
    payerId: UserId,
    description: string,
    totalAmount: int,
    createdAt: int,
    splits: seq<SplitSummary>)

  const RecentLimit: nat := 10

  /** `splits.filter((s) => s.is_settled)`. */
  function SettledSplits(splits: seq<SplitSummary>): (r: seq<SplitSummary>)
    ensures |r| == SumBy(splits, SettledWeight) <= |splits|
    ensures forall x :: x in r <==> x in splits && x.isSettled
  {
    if |splits| == 0 then []
    else
      var last := splits[|splits| - 1];
      assert splits == splits[..|splits| - 1] + [last];
      SettledSplits(splits[..|splits| - 1]) + (if last.isSettled then [last] else [])
  }

  /** One split's share of the counter: 1 when settled, else 0. */
  function SettledWeight(s: SplitSummary): int
  {
    if s.isSettled then 1 else 0
  }

  /** The counter `settledCount/totalCount`: the number of settled splits, at
      most the number of splits. */
  function SettledCount(splits: seq<SplitSummary>): (n: nat)
    ensures n == SumBy(splits, SettledWeight)
    ensures n <= |splits|
  {
    |SettledSplits(splits)|
  }

  /** Filtering a concatenation filters each part and keeps their order. */
  lemma {:induction false} SettledSplitsAppend(a: seq<SplitSummary>, b: seq<SplitSummary>)
    ensures SettledSplits(a + b) == SettledSplits(a) + SettledSplits(b)
    decreases |b|
  {
    if |b| == 0 {
      assert a + b == a;
    } else {
      assert (a + b)[..|a + b| - 1] == a + b[..|b| - 1];
      SettledSplitsAppend(a, b[..|b| - 1]);
    }
  }

  /** The counter of a concatenation is the sum of the counters. */
  lemma SettledCountAppend(a: seq<SplitSummary>, b: seq<SplitSummary>)
    ensures SettledCount(a + b) == SettledCount(a) + SettledCount(b)
  {
    SettledSplitsAppend(a, b);
  }

  /** The counter reads "all paid" exactly when every split is settled, and
      0 exactly when none is. */
  lemma {:induction false} SettledCountExtremes(splits: seq<SplitSummary>)
    ensures SettledCount(splits) == |splits| <==> forall i :: 0 <= i < |splits| ==> splits[i].isSettled
    ensures SettledCount(splits) == 0 <==> forall i :: 0 <= i < |splits| ==> !splits[i].isSettled
  {
    if |splits| > 0 {
      var init := splits[..|splits| - 1];
      SettledCountExtremes(init);
      assert forall i :: 0 <= i < |init| ==> init[i] == splits[i];
    }
  }

  /** The description line is shown when it is neither empty nor the default. */
  predicate ShowsDescription(t: TxView)
  {
    t.description != "" && t.description != ExpenseRecording.DefaultDescription
  }

  /** A transaction recorded from the add-expense page shows its description
      exactly when the user typed one that differs from the default text. */
  lemma RecordedDescriptionShown(
    payer: UserId, description: string, rows: seq<ExpenseForm.Row>,
    parse: ExpenseRecording.AmountParser, txId: TxId, createdAt: int, splits: seq<SplitSummary>)
    requires ExpenseRecording.Submit(payer, description, rows, parse, txId).Success?
    ensures
      var tx := ExpenseRecording.Submit(payer, description, rows, parse, txId).value.transaction;
      (ShowsDescription(TxView(txId, tx.payerId, tx.description, tx.totalAmount, createdAt, splits))
       <==> description != "" && description != ExpenseRecording.DefaultDescription)
  {
  }

  // ----- the query: paid by the user, newest first, at most ten -----

  function PaidBy(all: seq<TxView>, user: UserId): (r: seq<TxView>)
    ensures forall t :: t in r <==> t in all && t.payerId == user
    ensures multiset(r) <= multiset(all)
  {
    if |all| == 0 then []
    else
      var last := all[|all| - 1];
      assert all == all[..|all| - 1] + [last];
      PaidBy(all[..|all| - 1], user) + (if last.payerId == user then [last] else [])
  }

  predicate NewestFirst(s: seq<TxView>)
  {
    forall i, j :: 0 <= i < j < |s| ==> s[i].createdAt >= s[j].createdAt
  }

  function InsertByDate(x: TxView, s: seq<TxView>): (r: seq<TxView>)
    requires NewestFirst(s)
    ensures NewestFirst(r)
    ensures multiset(r) == multiset(s) + multiset{x}
    ensures |r| == |s| + 1
    ensures r[0] == x || (|s| > 0 && r[0] == s[0])
  {
    if |s| == 0 then [x]
    else if x.createdAt >= s[0].createdAt then [x] + s
    else
      var rest := InsertByDate(x, s[1..]);
      assert s == [s[0]] + s[1..];
      assert s[0].createdAt >= rest[0].createdAt;
      [s[0]] + rest
  }

  /** `.order("created_at", { ascending: false })`. */
  function SortNewestFirst(s: seq<TxView>): (r: seq<TxView>)
    ensures NewestFirst(r)
    ensures multiset(r) == multiset(s)
    ensures |r| == |s|
  {
    if |s| == 0 then []
    else
      assert s == s[..|s| - 1] + [s[|s| - 1]];
      InsertByDate(s[|s| - 1], SortNewestFirst(s[..|s| - 1]))
  }

  /** The card's transactions: `.eq("payer_id", userId)`, newest first, `.limit(10)`. */
  function Recent(all: seq<TxView>, user: UserId): seq<TxView>
  {
    var sorted := SortNewestFirst(PaidBy(all, user));
    if |sorted| <= RecentLimit then sorted else sorted[..RecentLimit]
  }

  /** A prefix of a newest-first list is newest-first, and nothing after the
      prefix is newer than anything in it. */
  lemma PrefixHoldsNewest(sorted: seq<TxView>, n: nat)
    requires NewestFirst(sorted) && n <= |sorted|
    ensures NewestFirst(sorted[..n])
    ensures forall t, k :: t in sorted && t !in sorted[..n] && 0 <= k < n ==> sorted[k].createdAt >= t.createdAt
  {
    forall t, k | t in sorted && t !in sorted[..n] && 0 <= k < n
      ensures sorted[k].createdAt >= t.createdAt
    {
      var m :| 0 <= m < |sorted| && sorted[m] == t;
    }
  }

  /** A prefix holds no element more often than the whole list. */
  lemma PrefixSubMultiset(s: seq<TxView>, n: nat)
    requires n <= |s|
    ensures multiset(s[..n]) <= multiset(s)
  {
    assert s == s[..n] + s[n..];
    assert multiset(s) == multiset(s[..n]) + multiset(s[n..]);
  }

  /** At most ten transactions are listed, all paid by the user, none twice
      unless the user's list holds it twice, newest first; as many as possible
      are listed, and no transaction of the user's that is
      left out is newer than one that is listed. */
  lemma RecentMeaning(all: seq<TxView>, user: UserId)
    ensures |Recent(all, user)| <= RecentLimit
    ensures |Recent(all, user)| == if |PaidBy(all, user)| < RecentLimit then |PaidBy(all, user)| else RecentLimit
    ensures forall t :: t in Recent(all, user) ==> t in all && t.payerId == user
    ensures multiset(Recent(all, user)) <= multiset(PaidBy(all, user))
    ensures NewestFirst(Recent(all, user))
    ensures forall t, k ::
      (t in all && t.payerId == user && t !in Recent(all, user) && 0 <= k < |Recent(all, user)|)
      ==> Recent(all, user)[k].createdAt >= t.createdAt
  {
    var paid := PaidBy(all, user);
    var sorted := SortNewestFirst(paid);
    var r := Recent(all, user);
    var n := |r|;
    assert r == sorted[..n];
    PrefixSubMultiset(sorted, n);
    PrefixHoldsNewest(sorted, n);
    forall t | t in all && t.payerId == user ensures t in sorted {
      assert t in multiset(paid);
    }
    forall t | t in r ensures t in all && t.payerId == user {
      assert t in multiset(sorted);
    }
  }
}
