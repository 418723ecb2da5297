/** The three settlement buttons. Each issues one unconditional single-row
    update: none of them reads or checks the split's current state first. */
module Settlement {
  import opened Base
  import opened Ledger

  const ConfirmedStatus: string := "confirmed"

  /** Columns written by the payer's "confirm payment" and "mark paid" buttons. */
  function ConfirmPatch(now: Timestamp): SplitPatch
  {
    SplitPatch(Some(Some(ConfirmedStatus)), Some(true), Some(Some(now)))
  }

  /** Columns written by "settle debt": the status column is not named. */
  function SettlePatch(now: Timestamp): SplitPatch
  {
    SplitPatch(None, Some(true), Some(Some(now)))
  }

  /** `handleConfirm` of the confirm-payment button, whatever the prior status. */
  function ConfirmPayment(store: SplitStore, splitId: SplitId, now: Timestamp): (r: SplitStore)
    ensures r.Keys == store.Keys
    ensures splitId in store ==>
      && r[splitId].settlementStatus == Some("confirmed")
      && r[splitId].isSettled
      && r[splitId].settledAt == Some(now)
    ensures splitId in store ==>
      && r[splitId].amount == store[splitId].amount
      && r[splitId].debtorId == store[splitId].debtorId
      && r[splitId].transactionId == store[splitId].transactionId
      && r[splitId].itemDescription == store[splitId].itemDescription
    ensures forall k :: k in store && k != splitId ==> r[k] == store[k]
    ensures OpenIds(r) == OpenIds(store) - {splitId}
  {
    UpdateById(store, splitId, ConfirmPatch(now))
  }

  /** `handleMarkPaid` of the mark-paid button. */
  function MarkPaid(store: SplitStore, splitId: SplitId, now: Timestamp): (r: SplitStore)
    ensures r.Keys == store.Keys
    ensures splitId in store ==>
      && r[splitId].settlementStatus == Some("confirmed")
      && r[splitId].isSettled
      && r[splitId].settledAt == Some(now)
    ensures splitId in store ==>
      && r[splitId].amount == store[splitId].amount
      && r[splitId].debtorId == store[splitId].debtorId
      && r[splitId].transactionId == store[splitId].transactionId
    ensures forall k :: k in store && k != splitId ==> r[k] == store[k]
    ensures OpenIds(r) == OpenIds(store) - {splitId}
  {
    UpdateById(store, splitId, SplitPatch(Some(Some("confirmed")), Some(true), Some(Some(now))))
  }

  /** `handleSettle` of the settle-debt button: flags the split settled and
      stamps it, leaving `settlement_status` as it was. */
  function Settle(store: SplitStore, splitId: SplitId, now: Timestamp): (r: SplitStore)
    ensures r.Keys == store.Keys
    ensures splitId in store ==>
      && r[splitId].isSettled
      && r[splitId].settledAt == Some(now)
      && r[splitId].settlementStatus == store[splitId].settlementStatus
    ensures splitId in store ==>
      && r[splitId].amount == store[splitId].amount
      && r[splitId].debtorId == store[splitId].debtorId
      && r[splitId].transactionId == store[splitId].transactionId
    ensures forall k :: k in store && k != splitId ==> r[k] == store[k]
    ensures OpenIds(r) == OpenIds(store) - {splitId}
  {
    UpdateById(store, splitId, SettlePatch(now))
  }

  /** The two payer-side buttons write the same columns with the same values. */
  lemma MarkPaidIsConfirm(store: SplitStore, splitId: SplitId, now: Timestamp)
    ensures MarkPaid(store, splitId, now) == ConfirmPayment(store, splitId, now)
  {
  }

  lemma ConfirmIdempotent(store: SplitStore, splitId: SplitId, now: Timestamp)
    ensures ConfirmPayment(ConfirmPayment(store, splitId, now), splitId, now)
         == ConfirmPayment(store, splitId, now)
  {
    UpdateByIdIdempotent(store, splitId, ConfirmPatch(now));
  }

  lemma MarkPaidIdempotent(store: SplitStore, splitId: SplitId, now: Timestamp)
    ensures MarkPaid(MarkPaid(store, splitId, now), splitId, now) == MarkPaid(store, splitId, now)
  {
    MarkPaidIsConfirm(store, splitId, now);
    MarkPaidIsConfirm(MarkPaid(store, splitId, now), splitId, now);
    ConfirmIdempotent(store, splitId, now);
  }

  lemma SettleIdempotent(store: SplitStore, splitId: SplitId, now: Timestamp)
    ensures Settle(Settle(store, splitId, now), splitId, now) == Settle(store, splitId, now)
  {
    UpdateByIdIdempotent(store, splitId, SettlePatch(now));
  }

  /** A split awaiting confirmation that the payer settles directly is settled
      yet still reads "pending"; confirming it instead clears that status. */
  lemma SettleLeavesPendingStatus(store: SplitStore, splitId: SplitId, now: Timestamp)
    requires splitId in store && store[splitId].settlementStatus == Some("pending")
    ensures Settle(store, splitId, now)[splitId].settlementStatus == Some("pending")
    ensures Settle(store, splitId, now)[splitId].isSettled
    ensures ConfirmPayment(store, splitId, now)[splitId].settlementStatus == Some("confirmed")
  {
  }

  /** Settling and then confirming leaves the same row as confirming alone:
      the confirm update overwrites every column settle writes. */
  lemma ConfirmAfterSettle(store: SplitStore, splitId: SplitId, now: Timestamp)
    ensures ConfirmPayment(Settle(store, splitId, now), splitId, now)
         == ConfirmPayment(store, splitId, now)
  {
    if splitId in store {
      var s := Settle(store, splitId, now);
      assert ConfirmPayment(s, splitId, now)[splitId] == ConfirmPayment(store, splitId, now)[splitId];
    }
  }
}
