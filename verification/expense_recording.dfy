/** What the "add expense" page records on submit: the rows that pass
    validation become the splits of one new transaction paid by the current
    user, whose total is the sum of those splits. */
module ExpenseRecording {
  import opened Base
  import opened Ledger
  import opened ExpenseForm

  /** `Number.parseFloat` on an amount text; `None` stands for `NaN`. */
  type AmountParser = string -> Option<int>

  /** Stored when the description field is left empty. */
  const DefaultDescription: string := "Chi tiêu"

  /** The value of a row's amount as the page reads it: the parsed number, or
      0 when the text does not parse (`Number.parseFloat(s.amount) || 0`). */
  function ParsedAmount(row: Row, parse: AmountParser): int
  {
    match parse(row.amount)
    case Some(v) => v
    case None => 0
  }

  function AmountOf(parse: AmountParser): Row -> int
  {
    row => ParsedAmount(row, parse)
  }

  /** A row survives submission: debtor, item and amount are filled in and the
      amount parses to a positive number. */
  predicate IsValidRow(row: Row, parse: AmountParser)
  {
    && row.debtorId != ""
    && row.itemDescription != ""
    && row.amount != ""
    && parse(row.amount).Some?
    && parse(row.amount).value > 0
  }

  /** `splits.filter(...)` of `handleSubmit`. */
  function ValidRows(rows: seq<Row>, parse: AmountParser): (r: seq<Row>)
    ensures |r| <= |rows|
    ensures forall x :: x in r <==> x in rows && IsValidRow(x, parse)
  {
    if |rows| == 0 then []
    else
      var init := ValidRows(rows[..|rows| - 1], parse);
      assert rows == rows[..|rows| - 1] + [rows[|rows| - 1]];
      if IsValidRow(rows[|rows| - 1], parse) then init + [rows[|rows| - 1]] else init
  }

  /** Validation filters each part of a concatenation separately, so the rows
      that survive keep their relative order. */
  lemma {:induction false} ValidRowsAppend(a: seq<Row>, b: seq<Row>, parse: AmountParser)
    ensures ValidRows(a + b, parse) == ValidRows(a, parse) + ValidRows(b, parse)
    decreases |b|
  {
    if |b| == 0 {
      assert a + b == a;
    } else {
      assert (a + b)[..|a + b| - 1] == a + b[..|b| - 1];
      ValidRowsAppend(a, b[..|b| - 1], parse);
    }
  }

  /** When every row is complete, validation keeps all of them. */
  lemma {:induction false} ValidRowsAllValid(rows: seq<Row>, parse: AmountParser)
    requires forall i :: 0 <= i < |rows| ==> IsValidRow(rows[i], parse)
    ensures ValidRows(rows, parse) == rows
  {
    if |rows| > 0 {
      ValidRowsAllValid(rows[..|rows| - 1], parse);
      assert rows == rows[..|rows| - 1] + [rows[|rows| - 1]];
    }
  }

  /** The `transactions` row inserted on submit. */
  datatype NewTransaction = NewTransaction(payerId: UserId, description: string, totalAmount: int)

  /** A `transaction_splits` row inserted on submit. */
  datatype NewSplit = NewSplit(transactionId: TxId, debtorId: UserId, itemDescription: string, amount: int)

  function SplitAmount(s: NewSplit): int
  {
    s.amount
  }

  datatype EntryError = NoCompleteEntry

  datatype Recording = Recording(transaction: NewTransaction, splits: seq<NewSplit>)

  /** `validSplits.map(...)`: one record per valid row, in the same order. */
  function SplitRecords(valid: seq<Row>, txId: TxId, parse: AmountParser): (r: seq<NewSplit>)
    ensures |r| == |valid|
    ensures forall i :: 0 <= i < |valid| ==>
      && r[i].transactionId == txId
      && r[i].debtorId == valid[i].debtorId
      && r[i].itemDescription == valid[i].itemDescription
      && r[i].amount == ParsedAmount(valid[i], parse)
  {
    if |valid| == 0 then []
    else
      var last := valid[|valid| - 1];
      SplitRecords(valid[..|valid| - 1], txId, parse)
        + [NewSplit(txId, last.debtorId, last.itemDescription, ParsedAmount(last, parse))]
  }

  /** The inserted split amounts add up to the reduced total of the valid rows. */
  lemma {:induction false} SplitRecordsSum(valid: seq<Row>, txId: TxId, parse: AmountParser)
    ensures SumBy(SplitRecords(valid, txId, parse), SplitAmount) == SumBy(valid, AmountOf(parse))
  {
    if |valid| > 0 {
      var recs := SplitRecords(valid, txId, parse);
      SplitRecordsSum(valid[..|valid| - 1], txId, parse);
      assert recs[..|recs| - 1] == SplitRecords(valid[..|valid| - 1], txId, parse);
    }
  }

  /** Positive terms have a positive sum. */
  lemma {:induction false} SumOfValidPositive(valid: seq<Row>, parse: AmountParser)
    requires |valid| > 0
    requires forall i :: 0 <= i < |valid| ==> IsValidRow(valid[i], parse)
    ensures SumBy(valid, AmountOf(parse)) > 0
  {
    if |valid| > 1 {
      SumOfValidPositive(valid[..|valid| - 1], parse);
    }
  }

  /** The pure part of `handleSubmit`: validate, total, default the
      description and build the split records for transaction `txId`. */
  function Submit(payer: UserId, description: string, rows: seq<Row>, parse: AmountParser, txId: TxId)
    : (r: Result<Recording, EntryError>)
    ensures r.Failure? <==> forall x :: x in rows ==> !IsValidRow(x, parse)
    ensures r.Success? ==>
      var valid := ValidRows(rows, parse);
      var tx := r.value.transaction;
      var splits := r.value.splits;
      && tx.payerId == payer
      && (description == "" ==> tx.description == DefaultDescription)
      && (description != "" ==> tx.description == description)
      && |splits| == |valid|
      && (forall i :: 0 <= i < |valid| ==>
            && splits[i].transactionId == txId
            && splits[i].debtorId == valid[i].debtorId
            && splits[i].itemDescription == valid[i].itemDescription
            && parse(valid[i].amount) == Some(splits[i].amount)
            && splits[i].amount > 0)
      && tx.totalAmount == SumBy(splits, SplitAmount)
      && tx.totalAmount > 0
  {
    var valid := ValidRows(rows, parse);
    if |valid| == 0 then
      assert forall x :: x in rows ==> !IsValidRow(x, parse);
      Failure(NoCompleteEntry)
    else
      assert forall i :: 0 <= i < |valid| ==> IsValidRow(valid[i], parse) by {
        forall i | 0 <= i < |valid| ensures IsValidRow(valid[i], parse) {
          assert valid[i] in valid;
        }
      }
      var total := SumBy(valid, AmountOf(parse));
      var splits := SplitRecords(valid, txId, parse);
      SplitRecordsSum(valid, txId, parse);
      SumOfValidPositive(valid, parse);
      assert valid[0] in rows && IsValidRow(valid[0], parse);
      Success(Recording(NewTransaction(payer, if description == "" then DefaultDescription else description, total), splits))
  }

  /** `calculateTotal`: the running total shown under the rows, which counts
      every row, valid or not, at its parsed amount. */
  function CalculateTotal(rows: seq<Row>, parse: AmountParser): int
  {
    SumBy(rows, AmountOf(parse))
  }

  /** When every row is complete, the total shown while editing is the total
      the transaction is recorded with. */
  lemma DisplayedTotalIsRecorded(payer: UserId, description: string, rows: seq<Row>, parse: AmountParser, txId: TxId)
    requires |rows| > 0
    requires forall i :: 0 <= i < |rows| ==> IsValidRow(rows[i], parse)
    ensures Submit(payer, description, rows, parse, txId).Success?
    ensures Submit(payer, description, rows, parse, txId).value.transaction.totalAmount
         == CalculateTotal(rows, parse)
  {
    ValidRowsAllValid(rows, parse);
    assert IsValidRow(rows[0], parse);
    SplitRecordsSum(rows, txId, parse);
  }

  /** Rows whose amount does not parse add nothing to the displayed total. */
  lemma {:induction false} UnparsedRowsAddNothing(rows: seq<Row>, extra: seq<Row>, parse: AmountParser)
    requires forall i :: 0 <= i < |extra| ==> parse(extra[i].amount).None?
    ensures CalculateTotal(rows + extra, parse) == CalculateTotal(rows, parse)
  {
    SumByAppend(rows, extra, AmountOf(parse));
    ZeroSum(extra, parse);
  }

  lemma {:induction false} ZeroSum(extra: seq<Row>, parse: AmountParser)
    requires forall i :: 0 <= i < |extra| ==> parse(extra[i].amount).None?
    ensures SumBy(extra, AmountOf(parse)) == 0
  {
    if |extra| > 0 {
      ZeroSum(extra[..|extra| - 1], parse);
    }
  }
}
