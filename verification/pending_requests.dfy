/** The header of the "payment requests awaiting confirmation" card. */
module PendingRequests {
  import opened Base
  import opened Ledger

  /** One request as the card receives it (one line per person). */
  datatype PendingRequest = PendingRequest(
    id: SplitId,
    amount: int,
    debtorId: UserId,
    payerId: UserId,
    personId: UserId,
    ids: Option<seq<SplitId>>)

  /** What the header shows: how many requests, and their total amount. */
  datatype Header = Header(count: nat, total: int)

  function RequestAmount(r: PendingRequest): int
  {
    r.amount
  }

  /** `PendingPaymentRequests`: a missing or empty list renders nothing;
      otherwise the header counts the requests and sums their amounts. */
  function RequestsHeader(requests: Option<seq<PendingRequest>>): (h: Option<Header>)
    ensures h.None? <==> requests.None? || |requests.value| == 0
    ensures h.Some? ==> h.value.count == |requests.value| && h.value.count > 0
    ensures h.Some? ==> h.value.total == SumBy(requests.value, RequestAmount)
  {
    match requests
    case None => None
    case Some(rs) =>
      if |rs| == 0 then None else Some(Header(|rs|, SumBy(rs, RequestAmount)))
  }

  /** The header does not depend on the order the requests arrive in. */
  lemma HeaderOrderIndependent(a: seq<PendingRequest>, b: seq<PendingRequest>)
    requires multiset(a) == multiset(b)
    ensures RequestsHeader(Some(a)) == RequestsHeader(Some(b))
  {
    assert |a| == |multiset(a)| == |multiset(b)| == |b|;
    SumByPermutation(a, b, RequestAmount);
  }

  /** Each request's amount, when none is negative, is at most the header total. */
  lemma {:induction false} HeaderTotalBoundsEach(rs: seq<PendingRequest>, k: nat)
    requires k < |rs|
    requires forall i :: 0 <= i < |rs| ==> rs[i].amount >= 0
    ensures rs[k].amount <= RequestsHeader(Some(rs)).value.total
  {
    SumByRemove(rs, k, RequestAmount);
    NonNegativeSum(rs[..k] + rs[k + 1..]);
  }

  lemma {:induction false} NonNegativeSum(rs: seq<PendingRequest>)
    requires forall i :: 0 <= i < |rs| ==> rs[i].amount >= 0
    ensures SumBy(rs, RequestAmount) >= 0
  {
    if |rs| > 0 {
      NonNegativeSum(rs[..|rs| - 1]);
    }
  }
}
