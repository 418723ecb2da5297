/** The stored records of the ledger: transactions (one expense event, paid by
    one person) and transaction splits (what one debtor owes within it), and
    the single-row update the data store offers. */
module Ledger {
  import opened Base

  type UserId = string
  type SplitId = string
  type TxId = string
  /** An ISO-8601 instant as `new Date().toISOString()` produces it. */
  type Timestamp = string

  /** A row of `transaction_splits`. `settlementStatus` is a free-text column
      that is `None` (SQL null) until a settlement button writes it. */
  datatype Split = Split(
    transactionId: TxId,
    debtorId: UserId,
    itemDescription: string,
    amount: int,
    imageUrl: Option<string>,
    settlementStatus: Option<string>,
    isSettled: bool,
    settledAt: Option<Timestamp>)

  /** The `transaction_splits` table, keyed by split id. */
  type SplitStore = map<SplitId, Split>

  /** The columns an `update({...})` call names; a `None` field is not written. */
  datatype SplitPatch = SplitPatch(
    settlementStatus: Option<Option<string>>,
    isSettled: Option<bool>,
    settledAt: Option<Option<Timestamp>>)

  /** One row after an update: named columns take the new value, the rest keep theirs. */
  function Patched(s: Split, p: SplitPatch): (r: Split)
    ensures r.transactionId == s.transactionId && r.debtorId == s.debtorId
    ensures r.itemDescription == s.itemDescription && r.amount == s.amount
    ensures r.imageUrl == s.imageUrl
    ensures p.settlementStatus.None? ==> r.settlementStatus == s.settlementStatus
    ensures p.settlementStatus.Some? ==> r.settlementStatus == p.settlementStatus.value
    ensures p.isSettled.None? ==> r.isSettled == s.isSettled
    ensures p.isSettled.Some? ==> r.isSettled == p.isSettled.value
    ensures p.settledAt.None? ==> r.settledAt == s.settledAt
    ensures p.settledAt.Some? ==> r.settledAt == p.settledAt.value
  {
    var s1 := match p.settlementStatus
      case Some(v) => s.(settlementStatus := v)
      case None => s;
    var s2 := match p.isSettled
      case Some(v) => s1.(isSettled := v)
      case None => s1;
    match p.settledAt
    case Some(v) => s2.(settledAt := v)
    case None => s2
  }

  /** `from("transaction_splits").update(patch).eq("id", id)`: rewrites the one
      row with that id; when no row has it, nothing happens and no error is raised. */
  function UpdateById(store: SplitStore, id: SplitId, p: SplitPatch): (r: SplitStore)
    ensures r.Keys == store.Keys
    ensures forall k :: k in store && k != id ==> r[k] == store[k]
    ensures id in store ==> r[id] == Patched(store[id], p)
  {
    if id in store then store[id := Patched(store[id], p)] else store
  }

  /** Writing a patch a second time changes nothing further. */
  lemma PatchedIdempotent(s: Split, p: SplitPatch)
    ensures Patched(Patched(s, p), p) == Patched(s, p)
  {
  }

  lemma {:induction false} UpdateByIdIdempotent(store: SplitStore, id: SplitId, p: SplitPatch)
    ensures UpdateById(UpdateById(store, id, p), id, p) == UpdateById(store, id, p)
  {
    var once := UpdateById(store, id, p);
    if id in store {
      PatchedIdempotent(store[id], p);
      assert UpdateById(once, id, p) == once[id := Patched(once[id], p)];
    }
  }

  /** The ids of splits still counted as owed (`is_settled = false`). */
  function OpenIds(store: SplitStore): (r: set<SplitId>)
    ensures forall k :: k in r <==> k in store && !store[k].isSettled
  {
    set k | k in store && !store[k].isSettled
  }
}
