# Shared-expense ledger: a Dafny model

This project models the core of a small shared-expense web app. One user records an
expense they paid as a **transaction**. The transaction has one **split** per debtor,
saying who owes what for which item. The model covers four groups of behaviour:

- **Expense entry** (`ExpenseForm`, `ExpenseRecording`):
  - the editable row list and bulk selection of people on the "add expense" page;
  - the validation filter;
  - the recorded total and default description;
  - the split records inserted on submit.
- **Debt aggregation** (`DebtSummary`, `PendingRequests`, `RecentTransactions`):
  - the dashboard fold of unsettled splits into per-person "owes me" / "I owe" totals;
  - the header of the pending-request card;
  - the settled/total counters and newest-ten selection of the recent-transactions card.
- **Settlement** (`Ledger`, `Settlement`): the three one-row updates (confirm payment,
  mark paid, settle debt) over the split table. The table is modelled as a
  `map<SplitId, Split>`.
- **Small builders and validators**:
  - the navigation bar's initials (`Navbar`);
  - the bank QR payload with its save guard and load-time regeneration (`BankQr`);
  - the validation ladders and stored paths of the avatar and expense-image upload
    routes (`UploadRequest`, `AvatarUpload`, `ExpenseImageUpload`).

Supporting modules:

- `Base` holds `Option`, `Result` and a sum over a sequence (`SumBy`), with its
  append and permutation lemmas.
- `Text` gives the JavaScript string built-ins the app uses a meaning on `seq<char>`:
  - `split` on one character, with its inverse `join`;
  - `pop` of the split;
  - `startsWith` and `includes`;
  - ASCII `toUpperCase`;
  - number-to-text.

Modelling choices:

- **Amounts** are integers, because the amount inputs use `step="1"`. `Number.parseFloat`
  is a parameter `parse: string -> Option<int>`, where `None` stands for `NaN`.
- **The selected-people `Set`** is an insertion-ordered sequence without duplicates.
- **`debtMap`** is a sequence of entries looked up by the same key text the code builds
  (`<id>_owes_me` / `<id>_i_owe`). Insertion order is kept, as in a JavaScript `Map`.
- **The data store's `.update(...).eq("id", x)`** rewrites the named columns of the one
  row with that id. When no row has the id, nothing happens.
- **Clocks, blob storage and the store's success or failure** are parameters:
  - `now` / `ts` for the clock;
  - the URL `put` returns, or `None` when it throws;
  - `updateSucceeds` for the store.
- **The summary queries' filters** (`payer_id` / `debtor_id` / `is_settled = false`) are
  functions over the joined split rows (`OwesMeQuery`, `IOweQuery`), not preconditions.
  The lemmas therefore also show that settled rows are ignored.
- **The bank QR loader** passes the stored `bank_account_holder` into the payload
  template without the `|| ""` fallback used for the input field. A null holder is
  therefore rendered as the text `null` (`BankQr.TemplateText`).
- **`getInitials`** is stated twice: as written (split on spaces, take each piece's first
  character) and by an independent reading (the characters that start a word). The two
  are proved equal.

## Model

| member | source | states |
|---|---|---|
| Ledger.UpdateById | components/confirm-payment-button.tsx:33-40 | an update by id keeps the set of rows, changes no row but the one with that id, and rewrites exactly the named columns of that row; a missing id changes nothing |
| Ledger.UpdateByIdIdempotent | components/settle-debt-button.tsx:33-39 | issuing the same single-row update twice leaves the same table as issuing it once |
| Settlement.ConfirmPayment | components/confirm-payment-button.tsx:33-40 | whatever the prior state, the split becomes "confirmed", settled and stamped with `now`; its amount, debtor, transaction and item are kept; every other row is identical; the open set loses exactly this id |
| Settlement.MarkPaid | components/mark-paid-button.tsx:33-40 | mark-paid sets status "confirmed", `is_settled` and `settled_at = now` on that split only, keeping amount, debtor and transaction; the open set loses exactly this id |
| Settlement.Settle | components/settle-debt-button.tsx:33-39 | settle sets `is_settled` and `settled_at = now` and leaves `settlement_status` as it was; amount, debtor and transaction are kept; only this row changes |
| Settlement.MarkPaidIsConfirm | components/mark-paid-button.tsx:35-38 | mark-paid produces exactly the table confirm produces for the same id and time |
| Settlement.ConfirmIdempotent | components/confirm-payment-button.tsx:35-39 | confirming twice with the same time equals confirming once |
| Settlement.MarkPaidIdempotent | components/mark-paid-button.tsx:35-39 | marking paid twice with the same time equals marking once |
| Settlement.SettleIdempotent | components/settle-debt-button.tsx:35-39 | settling twice with the same time equals settling once |
| Settlement.SettleLeavesPendingStatus | components/settle-debt-button.tsx:35-38 | a "pending" split that is settled directly is settled yet still reads "pending", while confirming it reads "confirmed" |
| Settlement.ConfirmAfterSettle | components/confirm-payment-button.tsx:35-38 | confirming a split after settling it gives the same table as confirming alone |
| ExpenseForm.AddRow | app/expenses/add/page.tsx:64-66 | adding a row keeps every existing row in place and appends one blank row |
| ExpenseForm.RemoveRow | app/expenses/add/page.tsx:68-72 | the last row is never removed; with two or more rows exactly row `index` goes and the rest keep their order; an index outside the list removes nothing |
| ExpenseForm.UpdateRow | app/expenses/add/page.tsx:74-78 | editing a field changes only that field of that row; length and all other rows are kept |
| ExpenseForm.ToggleBulkMode | app/expenses/add/page.tsx:132-137 | toggling bulk mode flips it and clears the selection, bulk item and bulk amount |
| ExpenseForm.TogglePerson | app/expenses/add/page.tsx:139-147 | toggling a person flips that person's membership only and keeps the selection free of duplicates |
| ExpenseForm.TogglePersonTwice | app/expenses/add/page.tsx:139-147 | toggling the same person twice restores the set of selected people, and restores the exact selection when the person was not selected |
| ExpenseForm.StartedRows | app/expenses/add/page.tsx:158 | the kept rows are exactly the existing rows in which any field has been typed |
| ExpenseForm.AddSelectedPeople | app/expenses/add/page.tsx:149-165 | a no-op unless someone is selected and both bulk fields are filled; otherwise the started rows followed by one row per selected person in selection order, each with the bulk item and amount, with bulk mode cleared |
| ExpenseForm.RowsNeverEmpty | app/expenses/add/page.tsx:64-78 | from a non-empty row list, every sequence of add, remove, edit and bulk-add actions leaves at least one row |
| ExpenseForm.PageNeverEmpty | app/expenses/add/page.tsx:32 | the page opens with one blank row, so no sequence of actions empties the row list |
| ExpenseRecording.ValidRows | app/expenses/add/page.tsx:86-88 | a row survives validation exactly when debtor, item and amount are non-empty and the amount parses to a positive number |
| ExpenseRecording.ValidRowsAppend | app/expenses/add/page.tsx:86-88 | validation filters each part of the list separately, so survivors keep their order |
| ExpenseRecording.SplitRecords | app/expenses/add/page.tsx:108-113 | one split record per valid row, in the same order, carrying the transaction id and that row's debtor, item and parsed amount |
| ExpenseRecording.SplitRecordsSum | app/expenses/add/page.tsx:94-113 | the inserted split amounts add up to the reduced total of the valid rows |
| ExpenseRecording.Submit | app/expenses/add/page.tsx:86-113 | submission fails exactly when no row is valid; otherwise the payer is the current user, an empty description becomes "Chi tiêu" and another is kept verbatim, there is one positive split per valid row matching it, and the recorded total is the positive sum of the split amounts |
| ExpenseRecording.DisplayedTotalIsRecorded | app/expenses/add/page.tsx:128-130 | when every row is complete, the running total shown while editing is the total the transaction is recorded with |
| ExpenseRecording.UnparsedRowsAddNothing | app/expenses/add/page.tsx:128-130 | rows whose amount does not parse add nothing to the running total |
| DebtSummary.KeyTextInjective | components/debt-summary.tsx:60-84 | two different (person, direction) pairs never share a `debtMap` key |
| DebtSummary.OwesMeQuery | components/debt-summary.tsx:23-35 | the "owes me" query returns exactly the unsettled splits of transactions the user paid |
| DebtSummary.IOweQuery | components/debt-summary.tsx:38-49 | the "I owe" query returns exactly the unsettled splits the user is debtor of |
| DebtSummary.ListOf | components/debt-summary.tsx:109 | a column lists exactly the entries of its direction, none more often than the summary holds it |
| DebtSummary.ListOfUnique | components/debt-summary.tsx:109 | filtering a list with one entry per (person, direction) keeps one entry per person in the column |
| DebtSummary.ColumnOnePerPerson | components/debt-summary.tsx:52-147 | each dashboard column lists a person at most once, and only entries of its own direction |
| DebtSummary.AggregateMeaning | components/debt-summary.tsx:52-99 | the fold keeps one entry per (person, direction) that has a contribution, and no other, each holding the sum of that pair's contributions |
| DebtSummary.SummaryMeaning | components/debt-summary.tsx:52-99 | the summary has at most one entry per (person, direction); an entry exists exactly when some unsettled row is counted for it, and its total is the sum of those rows' amounts |
| DebtSummary.SelfNeverOwesMe | components/debt-summary.tsx:58 | the user never appears in the "owes me" column |
| DebtSummary.SelfPaidSplitCountsAsIOwe | components/debt-summary.tsx:76-96 | an unsettled split the user both paid and owes puts the user in the "I owe" column |
| DebtSummary.BothDirections | components/debt-summary.tsx:60-84 | the same person can be listed in both columns at once |
| DebtSummary.SummaryOrderIndependent | components/debt-summary.tsx:63-87 | permuting the rows gives the same entries with the same totals |
| DebtSummary.SettledRowsIgnored | components/debt-summary.tsx:35-49 | dropping every settled row leaves the summary unchanged |
| DebtSummary.EntryCountBound | components/debt-summary.tsx:65-95 | there are never more entries than rows returned by the two queries |
| DebtSummary.CorrectedSummaryMeaning | components/debt-summary.tsx:58-96 | with the self-skip in both loops the user appears in neither column, every other person keeps the same entries, and totals are still the sums of the counted rows |
| PendingRequests.RequestsHeader | components/pending-payment-requests.tsx:24-38 | a missing or empty list renders nothing; otherwise the header counts the requests and sums their amounts |
| PendingRequests.HeaderOrderIndependent | components/pending-payment-requests.tsx:28 | the header does not depend on the order of the requests |
| PendingRequests.HeaderTotalBoundsEach | components/pending-payment-requests.tsx:28 | with no negative amounts, each request's amount is at most the header total |
| RecentTransactions.SettledSplits | components/recent-transactions.tsx:57 | the settled splits are exactly the splits flagged settled, one entry per settled split |
| RecentTransactions.SettledCount | components/recent-transactions.tsx:57-58 | the settled count is the number of splits flagged settled, so at most the number of splits |
| RecentTransactions.SettledSplitsAppend | components/recent-transactions.tsx:57 | filtering a concatenation of split lists filters each part, in order |
| RecentTransactions.SettledCountExtremes | components/recent-transactions.tsx:57-58 | the counter reads all-paid exactly when every split is settled, and 0 exactly when none is |
| RecentTransactions.RecordedDescriptionShown | components/recent-transactions.tsx:63 | a transaction recorded from the add page shows its description exactly when the typed description is non-empty and not "Chi tiêu" |
| RecentTransactions.RecentMeaning | components/recent-transactions.tsx:33-35 | at most ten transactions, all paid by the user and drawn from the user's list without repeats (a sub-multiset), newest first, as many as there are up to ten, and none of the user's omitted ones newer than a listed one |
| Navbar.InitialsMeaning | components/navbar.tsx:40-47 | no name or an empty name gives "U"; otherwise the upper-cased first letters of the words, at most one per piece, never a space; a name of spaces only gives "" |
| Navbar.HeadsOfSplitAreWordStarts | components/navbar.tsx:42-45 | taking the first character of each space-separated piece yields exactly the characters that start a word |
| Navbar.TwoWords | components/navbar.tsx:42-46 | a two-word name gives the upper-cased first letters of the two words in order |
| BankQr.PayloadRoundTrip | components/bank-qr-setup.tsx:76-80 | splitting the payload on the bar character gives back the bank code, account and holder when none contains a bar; an empty holder leaves the payload ending in a bar |
| BankQr.Load | components/bank-qr-setup.tsx:54-74 | with a user and a profile row the inputs are filled from it (null as empty), and a QR is generated only when bank and account number are both non-empty; otherwise nothing changes |
| BankQr.Save | components/bank-qr-setup.tsx:83-116 | save is rejected with no write exactly when bank or account number is empty; it succeeds exactly with a user and a successful update, writes the three inputs, and rebuilds the QR from exactly the saved values |
| BankQr.LoadAfterSave | components/bank-qr-setup.tsx:54-109 | reloading after a successful save shows the same inputs and the same QR as right after saving |
| BankQr.SavedQrReadsBack | components/bank-qr-setup.tsx:99-109 | the QR built on save reads back as the saved bank, account and holder when none contains a bar |
| Text.DecimalValue | app/api/avatar/upload/route.ts:39 | the decimal text of a timestamp reads back as the timestamp |
| Text.LastSegmentIsTail | app/api/avatar/upload/route.ts:39 | the last piece of a split is the text after the final separator, or the whole text when there is none |
| AvatarUpload.AvatarCheck | app/api/avatar/upload/route.ts:14-33 | the request passes exactly when signed in, with a form-data body whose file field holds a file whose type starts with "image/" and of at most 5 MiB; otherwise the first failing check answers: 401 without user, 500 "Upload failed" for a body that is not form data, 400 for a null or empty field, 500 "Upload failed" for a non-empty text value (reading its type throws), then 400 for non-image, too large |
| AvatarUpload.AvatarSizeBoundary | app/api/avatar/upload/route.ts:26-33 | any "image/…" type passes, and exactly 5 MiB passes while one byte more gets the size error |
| AvatarUpload.AvatarPathMeaning | app/api/avatar/upload/route.ts:39 | the stored path lies under `avatars/<uid>-`, and its extension is the name's text after its last '.', or the whole name when it has none |
| AvatarUpload.OldBlob | app/api/avatar/upload/route.ts:44-50 | the previous avatar is deleted exactly when it exists and its URL contains the blob host |
| AvatarUpload.OldBlobOnlyFromBlobStore | app/api/avatar/upload/route.ts:44 | a URL without the blob host is never deleted, and any URL containing it is |
| AvatarUpload.HandleAvatarUpload | app/api/avatar/upload/route.ts:5-68 | a rejected request touches nothing; an accepted one stores under the avatar path, deletes the previous blob store avatar before updating the profile, replies with the new URL only when the update succeeds, and on a failed update also deletes the new blob and replies 500 |
| AvatarUpload.RejectedRequestHasNoEffects | app/api/avatar/upload/route.ts:14-33 | a request failing validation stores nothing, deletes nothing, leaves the profile, and gets 401 exactly when there is no user |
| AvatarUpload.AsWrittenDanglesOnFailedUpdate | app/api/avatar/upload/route.ts:43-58 | when the previous avatar is in the blob store and the profile update fails, the profile is left pointing at a blob the route deleted |
| AvatarUpload.CorrectedKeepsAvatarLive | app/api/avatar/upload/route.ts:43-58 | deleting the previous avatar only after a successful update never leaves the profile pointing at a deleted blob |
| AvatarUpload.CorrectionKeepsReplies | app/api/avatar/upload/route.ts:52-63 | the corrected order gives the same replies, stored path and profile, and the same deletions on success |
| ExpenseImageUpload.ExpenseImageCheck | app/api/expense-image/upload/route.ts:14-34 | the request passes exactly when signed in, with a form-data body whose file field holds a file whose type is exactly one of the five whitelisted types and of at most 5 MiB; otherwise 401, 500 "Failed to upload image" for a body that is not form data, then 400 for a null or empty field, a bad type (a text value counts as one), too large, in that order |
| ExpenseImageUpload.TextFieldRepliesDiffer | app/api/expense-image/upload/route.ts:19-28 | a non-empty text value in the file field gets 500 from the avatar route and 400 "Invalid file type" from this one |
| ExpenseImageUpload.WhitelistIsNarrowerThanPrefix | app/api/expense-image/upload/route.ts:26-34 | every whitelisted type is an image type, but an SVG image is refused; exactly 5 MiB passes, one byte more does not |
| ExpenseImageUpload.ExpenseImagePathParts | app/api/expense-image/upload/route.ts:37 | the stored path has three '/'-separated parts: the fixed root, the uploader's id, and the timestamped original name |
| ExpenseImageUpload.HandleExpenseImageUpload | app/api/expense-image/upload/route.ts:5-46 | a rejected request stores nothing; an accepted one stores under the expense-image path and replies with the stored URL, or 500 when storing fails |
| ExpenseImageUpload.StoredUnderUploader | app/api/expense-image/upload/route.ts:37 | a stored image's path starts with the uploader's folder and ends with the uploaded file name |

## Left out

- Data store I/O. Queries, inserts and the session lookup are not modelled as effects.
  - Submit returns the records it would insert.
  - If the split insert fails after the transaction insert succeeded, a transaction
    without splits is left behind. This is not modelled, because the failure comes from
    the store.
- Clock and ids. `Date.now()`, `new Date().toISOString()` and database-generated ids are
  parameters.
- Blob storage. `put` and `del` are not modelled. The model records the path handed to
  `put`, the URLs handed to `del`, and the URL `put` returns.
- A failing `del` of the old avatar is caught and ignored by the route. The model records
  only the deletion request.
- AvatarUpload.HandleAvatarUpload: replies "Failed to update profile" after a failed
  update. If the clean-up `del` of the new blob also throws, the route actually answers
  "Upload failed". Both replies are status 500.
- Floating point. Amounts are integers, and `Number.parseFloat` / `Number` are the
  `parse` parameter.
- Text encoding. `toUpperCase` is ASCII-only (`Text.UpperChar`). The model's `n[0]`
  takes a whole Unicode code point (a Dafny `char`), where the app's takes one UTF-16
  code unit, so a name starting with a character outside the Basic Multilingual Plane
  gives the whole character rather than half a surrogate pair.
- Debt netting or offsetting. It does not occur in this code.
- Guards on the settlement buttons. The buttons update unconditionally, so none are
  modelled.
- Sort ties. `RecentTransactions.SortNewestFirst` orders ties its own way, because the
  store's order for equal `created_at` is unspecified. The lemmas state only the ordering
  and membership.
- Grouping of pending requests. Callers of the pending-request card build the per-person
  grouping (`ids`); that code is not part of this model.
- Out of scope: `components/debt-bulk-actions.tsx` (posts to routes not part of this
  model), authentication and profile pages, theme toggle, page composition, dialogs,
  routing and refresh, and amount and date formatting.
- The bank list of the QR setup is display data only.
- The QR image and its download are not modelled; only the payload text is.

## Findings

| source | as written | input that shows it | evidently intended | confidence | as-written member | corrected member |
|---|---|---|---|---|---|---|
| app/api/avatar/upload/route.ts:43-58 | the previous avatar is deleted before the profile update; if the update fails, the new blob is deleted too and the profile keeps the URL of the deleted old blob | signed-in user, a small `image/png`, current avatar `https://x.public.blob.vercel-storage.com/a.png`, `put` succeeds, profile update returns an error | delete the previous avatar only after the profile points at the new one | medium; not executed | AvatarUpload.AsWrittenDanglesOnFailedUpdate | AvatarUpload.CorrectedKeepsAvatarLive |
| components/debt-summary.tsx:76-96 | the "I owe" loop lacks the self-skip of line 58, so a split the user paid for themself lists the user as someone they owe | one unsettled split whose transaction the user paid and whose debtor is the user | skip the user in both loops | low; not executed | DebtSummary.SelfPaidSplitCountsAsIOwe | DebtSummary.CorrectedSummaryMeaning |
