/** The editable state of the "add expense" page: the list of entry rows and
    the bulk mode that adds one row per selected person. All values are the
    raw texts of the form fields. */
module ExpenseForm {
  import opened Base
  import opened Ledger

  /** One entry row: who owes, for what, and how much (as typed). */
  datatype Row = Row(debtorId: UserId, itemDescription: string, amount: string)

  datatype Field = DebtorField | ItemField | AmountField

  /** Bulk-mode state: the selection keeps insertion order, like a JavaScript `Set`. */
  datatype BulkState = BulkState(active: bool, selected: seq<UserId>, item: string, amount: string)

  const BlankRow: Row := Row("", "", "")

  /** The page opens with one blank row. */
  const InitialRows: seq<Row> := [BlankRow]

  /** No id is selected twice. */
  predicate NoDuplicates(s: seq<UserId>)
  {
    forall i, j :: 0 <= i < j < |s| ==> s[i] != s[j]
  }

  /** `addSplit`: a blank row is appended. */
  function AddRow(rows: seq<Row>): (r: seq<Row>)
    ensures |r| == |rows| + 1
    ensures r[..|rows|] == rows && r[|rows|] == BlankRow
  {
    rows + [BlankRow]
  }

  /** `splits.filter((_, i) => i !== index)`, element by element. */
  function WithoutIndex(rows: seq<Row>, index: int): (r: seq<Row>)
    ensures 0 <= index < |rows| ==> r == rows[..index] + rows[index + 1..]
    ensures !(0 <= index < |rows|) ==> r == rows
  {
    if |rows| == 0 then []
    else
      var init := WithoutIndex(rows[..|rows| - 1], index);
      assert rows[..|rows| - 1][..|rows| - 1] == rows[..|rows| - 1];
      if index == |rows| - 1 then init else init + [rows[|rows| - 1]]
  }

  /** `removeSplit`: the last remaining row is never removed; otherwise exactly
      row `index` goes and the others keep their order. An index outside the
      list removes nothing. */
  function RemoveRow(rows: seq<Row>, index: int): (r: seq<Row>)
    ensures |rows| <= 1 ==> r == rows
    ensures |rows| > 1 && 0 <= index < |rows| ==> r == rows[..index] + rows[index + 1..]
    ensures !(0 <= index < |rows|) ==> r == rows
    ensures |rows| >= 1 ==> |r| >= 1
  {
    if |rows| > 1 then WithoutIndex(rows, index) else rows
  }

  /** `updateSplit`: one field of one row is replaced. The page only passes
      indexes of rows it is displaying. */
  function UpdateRow(rows: seq<Row>, index: int, field: Field, value: string): (r: seq<Row>)
    requires 0 <= index < |rows|
    ensures |r| == |rows|
    ensures forall i :: 0 <= i < |rows| && i != index ==> r[i] == rows[i]
    ensures field == DebtorField ==> r[index] == rows[index].(debtorId := value)
    ensures field == ItemField ==> r[index] == rows[index].(itemDescription := value)
    ensures field == AmountField ==> r[index] == rows[index].(amount := value)
  {
    var current := rows[index];
    var row := match field
      case DebtorField => current.(debtorId := value)
      case ItemField => current.(itemDescription := value)
      case AmountField => current.(amount := value);
    rows[index := row]
  }

  /** `toggleBulkMode`: flips the mode and clears the selection and bulk fields. */
  function ToggleBulkMode(b: BulkState): (r: BulkState)
    ensures r.active == !b.active
    ensures r.selected == [] && r.item == "" && r.amount == ""
  {
    BulkState(!b.active, [], "", "")
  }

  /** `Set.delete`: the id is dropped, the others keep their order. */
  function Without(s: seq<UserId>, p: UserId): (r: seq<UserId>)
    ensures p !in r
    ensures forall q :: q != p ==> (q in r <==> q in s)
    ensures NoDuplicates(s) ==> NoDuplicates(r)
    ensures p !in s ==> r == s
  {
    if |s| == 0 then []
    else
      var init := Without(s[..|s| - 1], p);
      var last := s[|s| - 1];
      assert s == s[..|s| - 1] + [last];
      assert NoDuplicates(s) ==> last !in s[..|s| - 1];
      if last == p then init else init + [last]
  }

  /** `togglePersonSelection`: a selected id is removed, an unselected one is
      appended at the end (insertion order of a JavaScript `Set`). */
  function TogglePerson(selected: seq<UserId>, p: UserId): (r: seq<UserId>)
    ensures p in r <==> p !in selected
    ensures forall q :: q != p ==> (q in r <==> q in selected)
    ensures NoDuplicates(selected) ==> NoDuplicates(r)
  {
    if p in selected then Without(selected, p) else selected + [p]
  }

  /** Toggling the same person twice restores who is selected; when the person
      was not selected before, it restores the exact selection. */
  lemma TogglePersonTwice(selected: seq<UserId>, p: UserId)
    ensures forall q :: q in TogglePerson(TogglePerson(selected, p), p) <==> q in selected
    ensures p !in selected ==> TogglePerson(TogglePerson(selected, p), p) == selected
  {
    if p !in selected {
      assert Without(selected + [p], p) == selected by {
        var s := selected + [p];
        assert s[..|s| - 1] == selected;
      }
    }
  }

  /** A row where something has been typed (the bulk add keeps these). */
  predicate IsStarted(row: Row)
  {
    row.debtorId != "" || row.itemDescription != "" || row.amount != ""
  }

  /** `splits.filter((s) => s.debtor_id || s.item_description || s.amount)`. */
  function StartedRows(rows: seq<Row>): (r: seq<Row>)
    ensures |r| <= |rows|
    ensures forall x :: x in r <==> x in rows && IsStarted(x)
  {
    if |rows| == 0 then []
    else
      var init := StartedRows(rows[..|rows| - 1]);
      assert rows == rows[..|rows| - 1] + [rows[|rows| - 1]];
      if IsStarted(rows[|rows| - 1]) then init + [rows[|rows| - 1]] else init
  }

  /** Filtering a concatenation filters each part: kept rows stay in order. */
  lemma {:induction false} StartedRowsAppend(a: seq<Row>, b: seq<Row>)
    ensures StartedRows(a + b) == StartedRows(a) + StartedRows(b)
    decreases |b|
  {
    if |b| == 0 {
      assert a + b == a;
    } else {
      assert (a + b)[..|a + b| - 1] == a + b[..|b| - 1];
      StartedRowsAppend(a, b[..|b| - 1]);
    }
  }

  /** One row per selected person, each with the bulk item and amount. */
  function PeopleRows(selected: seq<UserId>, item: string, amount: string): (r: seq<Row>)
    ensures |r| == |selected|
    ensures forall i :: 0 <= i < |r| ==> r[i] == Row(selected[i], item, amount)
  {
    if |selected| == 0 then []
    else [Row(selected[0], item, amount)] + PeopleRows(selected[1..], item, amount)
  }

  /** `addSelectedPeople`: does nothing unless some person is selected and both
      bulk fields are filled; otherwise keeps the started rows, appends one row
      per selected person in selection order, and leaves bulk mode cleared. */
  function AddSelectedPeople(rows: seq<Row>, b: BulkState): (r: (seq<Row>, BulkState))
    ensures |b.selected| == 0 || b.item == "" || b.amount == "" ==> r == (rows, b)
    ensures |b.selected| > 0 && b.item != "" && b.amount != "" ==>
      && r.1 == BulkState(false, [], "", "")
      && |r.0| == |StartedRows(rows)| + |b.selected|
      && r.0[..|StartedRows(rows)|] == StartedRows(rows)
      && forall i :: 0 <= i < |b.selected| ==>
           r.0[|StartedRows(rows)| + i] == Row(b.selected[i], b.item, b.amount)
    ensures |rows| >= 1 ==> |r.0| >= 1
  {
    if |b.selected| == 0 || b.item == "" || b.amount == "" then (rows, b)
    else
      var kept := StartedRows(rows);
      var added := PeopleRows(b.selected, b.item, b.amount);
      assert (kept + added)[..|kept|] == kept;
      (kept + added, BulkState(false, [], "", ""))
  }

  /** The form actions a user can trigger on the row list. */
  datatype Action =
    | AddAction
    | RemoveAction(index: int)
    | UpdateAction(index: int, field: Field, value: string)
    | BulkAddAction(bulk: BulkState)

  /** The row list after one action; an update of a row that is not displayed
      cannot be triggered and leaves the rows as they are. */
  function Apply(rows: seq<Row>, a: Action): seq<Row>
  {
    match a
    case AddAction => AddRow(rows)
    case RemoveAction(i) => RemoveRow(rows, i)
    case UpdateAction(i, f, v) => if 0 <= i < |rows| then UpdateRow(rows, i, f, v) else rows
    case BulkAddAction(b) => AddSelectedPeople(rows, b).0
  }

  function ApplyAll(rows: seq<Row>, actions: seq<Action>): seq<Row>
    decreases |actions|
  {
    if |actions| == 0 then rows else ApplyAll(Apply(rows, actions[0]), actions[1..])
  }

  /** From any non-empty list of rows, every sequence of actions leaves at
      least one row on the page. */
  lemma {:induction false} RowsNeverEmpty(rows: seq<Row>, actions: seq<Action>)
    requires |rows| >= 1
    ensures |ApplyAll(rows, actions)| >= 1
    decreases |actions|
  {
    if |actions| > 0 {
      RowsNeverEmpty(Apply(rows, actions[0]), actions[1..]);
    }
  }

  /** The page opens with one blank row, so it never shows an empty list. */
  lemma PageNeverEmpty(actions: seq<Action>)
    ensures |ApplyAll(InitialRows, actions)| >= 1
  {
    RowsNeverEmpty(InitialRows, actions);
  }
}
