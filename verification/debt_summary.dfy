/** The dashboard's debt summary for one user: unsettled splits are folded
    into one running total per (person, direction), "owes me" for splits in
    transactions the user paid and "I owe" for splits the user is debtor of. */
module DebtSummary {
  import opened Base
  import opened Ledger

  /** A split joined with its transaction's payer and the profiles involved,
      as the two summary queries read it. */
  datatype SplitRow = SplitRow(
    debtorId: UserId,
    debtorName: string,
    payerId: UserId,
    payerName: string,
    amount: int,
    isSettled: bool)

  datatype Direction = OwesMe | IOwe

  /** One line of the summary (`DebtInfo`). */
  datatype DebtInfo = DebtInfo(personId: UserId, personName: string, totalAmount: int, direction: Direction)

  /** One split's share of the fold: whom it concerns, in which direction. */
  datatype Contribution = Contribution(personId: UserId, personName: string, amount: int, direction: Direction)

  /** The `debtMap` key: `${id}_owes_me` or `${id}_i_owe`. */
  function KeyText(personId: UserId, d: Direction): string
  {
    personId + (if d == OwesMe then "_owes_me" else "_i_owe")
  }

  /** The second-to-last character of a key tells the direction. */
  lemma KeyMarker(p: UserId, d: Direction)
    ensures |KeyText(p, d)| >= 2
    ensures KeyText(p, d)[|KeyText(p, d)| - 2] == (if d == OwesMe then 'm' else 'w')
  {
  }

  /** Distinct (person, direction) pairs never share a key, so one map holds
      both directions without collisions. */
  lemma KeyTextInjective(p1: UserId, d1: Direction, p2: UserId, d2: Direction)
    requires KeyText(p1, d1) == KeyText(p2, d2)
    ensures p1 == p2 && d1 == d2
  {
    var k := KeyText(p1, d1);
    if d1 != d2 {
      // the two suffixes differ in their second-to-last character ('m' / 'w')
      KeyMarker(p1, d1);
      KeyMarker(p2, d2);
      assert false;
    } else {
      var suffix := if d1 == OwesMe then "_owes_me" else "_i_owe";
      assert p1 == k[..|k| - |suffix|] == p2;
    }
  }

  // ----- the two queries (`.eq(...)` filters) -----

  /** Splits of transactions the user paid, still unsettled, in retrieval order. */
  function OwesMeQuery(rows: seq<SplitRow>, user: UserId): (r: seq<SplitRow>)
    ensures |r| <= |rows|
    ensures forall x :: x in r <==> x in rows && x.payerId == user && !x.isSettled
  {
    if |rows| == 0 then []
    else
      var last := rows[|rows| - 1];
      assert rows == rows[..|rows| - 1] + [last];
      OwesMeQuery(rows[..|rows| - 1], user) + (if last.payerId == user && !last.isSettled then [last] else [])
  }

  /** Splits the user is debtor of, still unsettled, in retrieval order. */
  function IOweQuery(rows: seq<SplitRow>, user: UserId): (r: seq<SplitRow>)
    ensures |r| <= |rows|
    ensures forall x :: x in r <==> x in rows && x.debtorId == user && !x.isSettled
  {
    if |rows| == 0 then []
    else
      var last := rows[|rows| - 1];
      assert rows == rows[..|rows| - 1] + [last];
      IOweQuery(rows[..|rows| - 1], user) + (if last.debtorId == user && !last.isSettled then [last] else [])
  }

  // ----- the two loops, as a list of contributions -----

  /** The "owes me" loop: one contribution per row, keyed by the debtor, except
      rows whose debtor is the user, which are skipped. */
  function OwesMeContributions(owesMe: seq<SplitRow>, user: UserId): (r: seq<Contribution>)
    ensures |r| <= |owesMe|
  {
    if |owesMe| == 0 then []
    else
      var last := owesMe[|owesMe| - 1];
      OwesMeContributions(owesMe[..|owesMe| - 1], user)
        + (if last.debtorId == user then [] else [Contribution(last.debtorId, last.debtorName, last.amount, OwesMe)])
  }

  /** The "I owe" loop: one contribution per row, keyed by the payer, with no
      self-skip. */
  function IOweContributions(iOwe: seq<SplitRow>): (r: seq<Contribution>)
    ensures |r| == |iOwe|
  {
    if |iOwe| == 0 then []
    else
      var last := iOwe[|iOwe| - 1];
      IOweContributions(iOwe[..|iOwe| - 1]) + [Contribution(last.payerId, last.payerName, last.amount, IOwe)]
  }

  function Contributions(user: UserId, owesMe: seq<SplitRow>, iOwe: seq<SplitRow>): seq<Contribution>
  {
    OwesMeContributions(owesMe, user) + IOweContributions(iOwe)
  }

  // ----- the fold into `debtMap` -----

  /** Position of the entry stored under `key`, or -1 (`debtMap.get(key)`). */
  function IndexOfKey(entries: seq<DebtInfo>, key: string): (r: int)
    ensures -1 <= r < |entries|
    ensures r >= 0 ==> KeyText(entries[r].personId, entries[r].direction) == key
    ensures r < 0 ==> forall i :: 0 <= i < |entries| ==> KeyText(entries[i].personId, entries[i].direction) != key
  {
    if |entries| == 0 then -1
    else if KeyText(entries[|entries| - 1].personId, entries[|entries| - 1].direction) == key then |entries| - 1
    else IndexOfKey(entries[..|entries| - 1], key)
  }

  /** One loop iteration: add to the existing entry, or insert a new entry
      (named after this row) at the end of the insertion order. */
  function Upsert(entries: seq<DebtInfo>, c: Contribution): seq<DebtInfo>
  {
    var i := IndexOfKey(entries, KeyText(c.personId, c.direction));
    if i >= 0 then entries[i := entries[i].(totalAmount := entries[i].totalAmount + c.amount)]
    else entries + [DebtInfo(c.personId, c.personName, c.amount, c.direction)]
  }

  /** `Array.from(debtMap.values())` after processing all contributions in order. */
  function Aggregate(cs: seq<Contribution>): (r: seq<DebtInfo>)
    ensures |r| <= |cs|
  {
    if |cs| == 0 then [] else Upsert(Aggregate(cs[..|cs| - 1]), cs[|cs| - 1])
  }

  /** The whole summary from the joined split rows. */
  function Summary(rows: seq<SplitRow>, user: UserId): seq<DebtInfo>
  {
    Aggregate(Contributions(user, OwesMeQuery(rows, user), IOweQuery(rows, user)))
  }

  /** `debts.filter((d) => d.type === ...)`: one column of the dashboard. */
  function ListOf(debts: seq<DebtInfo>, d: Direction): (r: seq<DebtInfo>)
    ensures forall e :: e in r <==> e in debts && e.direction == d
    ensures multiset(r) <= multiset(debts)
  {
    if |debts| == 0 then []
    else
      var last := debts[|debts| - 1];
      assert debts == debts[..|debts| - 1] + [last];
      ListOf(debts[..|debts| - 1], d) + (if last.direction == d then [last] else [])
  }

  // ----- what the fold means -----

  predicate HasEntry(entries: seq<DebtInfo>, p: UserId, d: Direction)
  {
    exists i :: 0 <= i < |entries| && entries[i].personId == p && entries[i].direction == d
  }

  predicate Contributes(cs: seq<Contribution>, p: UserId, d: Direction)
  {
    exists j :: 0 <= j < |cs| && cs[j].personId == p && cs[j].direction == d
  }

  /** No two entries are about the same person in the same direction. */
  predicate UniqueEntries(entries: seq<DebtInfo>)
  {
    forall i, j :: 0 <= i < j < |entries| ==>
      !(entries[i].personId == entries[j].personId && entries[i].direction == entries[j].direction)
  }

  /** A column of a list with one entry per (person, direction) has one entry
      per person. */
  lemma {:induction false} ListOfUnique(debts: seq<DebtInfo>, d: Direction)
    requires UniqueEntries(debts)
    ensures UniqueEntries(ListOf(debts, d))
  {
    if |debts| > 0 {
      var init := debts[..|debts| - 1];
      var last := debts[|debts| - 1];
      assert UniqueEntries(init) by {
        forall i, j | 0 <= i < j < |init|
          ensures !(init[i].personId == init[j].personId && init[i].direction == init[j].direction)
        {
          assert init[i] == debts[i] && init[j] == debts[j];
        }
      }
      ListOfUnique(init, d);
      var r := ListOf(init, d);
      if last.direction == d {
        forall k | 0 <= k < |r| ensures !(r[k].personId == last.personId && r[k].direction == last.direction) {
          assert r[k] in init;
          var m :| 0 <= m < |init| && init[m] == r[k];
          assert debts[m] == r[k];
        }
        assert ListOf(debts, d) == r + [last];
      } else {
        assert ListOf(debts, d) == r + [];
      }
    }
  }

  function Weight(p: UserId, d: Direction): Contribution -> int
  {
    (c: Contribution) => if c.personId == p && c.direction == d then c.amount else 0
  }

  /** What the contributions add up to for one (person, direction). */
  function Owed(cs: seq<Contribution>, p: UserId, d: Direction): int
  {
    SumBy(cs, Weight(p, d))
  }

  lemma {:induction false} OwedWithoutContributions(cs: seq<Contribution>, p: UserId, d: Direction)
    requires !Contributes(cs, p, d)
    ensures Owed(cs, p, d) == 0
  {
    if |cs| > 0 {
      var init := cs[..|cs| - 1];
      forall j | 0 <= j < |init|
        ensures !(init[j].personId == p && init[j].direction == d)
      {
        assert init[j] == cs[j];
      }
      OwedWithoutContributions(init, p, d);
    }
  }

  /** Appending a contribution adds its weight to its own pair only. */
  lemma OwedSnoc(init: seq<Contribution>, c: Contribution, p: UserId, d: Direction)
    ensures Owed(init + [c], p, d) == Owed(init, p, d) + Weight(p, d)(c)
  {
    assert (init + [c])[..|init|] == init;
  }

  lemma ContributesSnoc(init: seq<Contribution>, c: Contribution, p: UserId, d: Direction)
    ensures Contributes(init + [c], p, d) <==> Contributes(init, p, d) || (c.personId == p && c.direction == d)
  {
    var cs := init + [c];
    if Contributes(init, p, d) {
      var j :| 0 <= j < |init| && init[j].personId == p && init[j].direction == d;
      assert cs[j] == init[j];
    }
    if c.personId == p && c.direction == d {
      assert cs[|init|] == c;
    }
    if Contributes(cs, p, d) {
      var j :| 0 <= j < |cs| && cs[j].personId == p && cs[j].direction == d;
      if j < |init| { assert init[j] == cs[j]; }
    }
  }

  /** `entries` is exactly the fold's meaning for `cs`: one entry per
      contributing pair, holding that pair's sum. */
  ghost predicate Describes(entries: seq<DebtInfo>, cs: seq<Contribution>)
  {
    && UniqueEntries(entries)
    && (forall i :: 0 <= i < |entries| ==>
          entries[i].totalAmount == Owed(cs, entries[i].personId, entries[i].direction))
    && (forall p, d :: HasEntry(entries, p, d) <==> Contributes(cs, p, d))
  }

  /** Adding to an entry that already exists keeps the description exact. */
  lemma UpsertExisting(prev: seq<DebtInfo>, init: seq<Contribution>, c: Contribution, i: int)
    requires Describes(prev, init)
    requires 0 <= i < |prev| && prev[i].personId == c.personId && prev[i].direction == c.direction
    ensures Describes(prev[i := prev[i].(totalAmount := prev[i].totalAmount + c.amount)], init + [c])
  {
    var F := prev[i := prev[i].(totalAmount := prev[i].totalAmount + c.amount)];
    var cs := init + [c];
    forall j | 0 <= j < |F|
      ensures F[j].totalAmount == Owed(cs, F[j].personId, F[j].direction)
    {
      OwedSnoc(init, c, F[j].personId, F[j].direction);
      if j != i {
        assert F[j] == prev[j];
        assert !(prev[j].personId == c.personId && prev[j].direction == c.direction) by {
          if j < i {} else {}
        }
      }
    }
    forall p, d ensures HasEntry(F, p, d) <==> Contributes(cs, p, d) {
      ContributesSnoc(init, c, p, d);
      if HasEntry(prev, p, d) {
        var j :| 0 <= j < |prev| && prev[j].personId == p && prev[j].direction == d;
        assert F[j].personId == p && F[j].direction == d;
      }
      if HasEntry(F, p, d) {
        var j :| 0 <= j < |F| && F[j].personId == p && F[j].direction == d;
        assert prev[j].personId == p && prev[j].direction == d;
      }
    }
  }

  /** Appending an entry for a pair not yet present keeps the description exact. */
  lemma UpsertNew(prev: seq<DebtInfo>, init: seq<Contribution>, c: Contribution)
    requires Describes(prev, init)
    requires forall j :: 0 <= j < |prev| ==> !(prev[j].personId == c.personId && prev[j].direction == c.direction)
    ensures Describes(prev + [DebtInfo(c.personId, c.personName, c.amount, c.direction)], init + [c])
  {
    var F := prev + [DebtInfo(c.personId, c.personName, c.amount, c.direction)];
    var cs := init + [c];
    assert !HasEntry(prev, c.personId, c.direction);
    OwedWithoutContributions(init, c.personId, c.direction);
    forall j | 0 <= j < |F|
      ensures F[j].totalAmount == Owed(cs, F[j].personId, F[j].direction)
    {
      OwedSnoc(init, c, F[j].personId, F[j].direction);
      if j < |prev| { assert F[j] == prev[j]; }
    }
    forall p, d ensures HasEntry(F, p, d) <==> Contributes(cs, p, d) {
      ContributesSnoc(init, c, p, d);
      if HasEntry(prev, p, d) {
        var j :| 0 <= j < |prev| && prev[j].personId == p && prev[j].direction == d;
        assert F[j].personId == p && F[j].direction == d;
      }
      if HasEntry(F, p, d) {
        var j :| 0 <= j < |F| && F[j].personId == p && F[j].direction == d;
        if j < |prev| { assert prev[j].personId == p && prev[j].direction == d; }
      }
      if c.personId == p && c.direction == d {
        assert F[|prev|].personId == p && F[|prev|].direction == d;
      }
    }
  }

  /** The fold keeps one entry per (person, direction) that has a contribution
      and none other, each holding the sum of that pair's contributions. */
  lemma {:induction false} AggregateMeaning(cs: seq<Contribution>)
    ensures UniqueEntries(Aggregate(cs))
    ensures forall i :: 0 <= i < |Aggregate(cs)| ==>
      Aggregate(cs)[i].totalAmount == Owed(cs, Aggregate(cs)[i].personId, Aggregate(cs)[i].direction)
    ensures forall p, d :: HasEntry(Aggregate(cs), p, d) <==> Contributes(cs, p, d)
  {
    if |cs| > 0 {
      var init := cs[..|cs| - 1];
      var c := cs[|cs| - 1];
      var prev := Aggregate(init);
      AggregateMeaning(init);
      assert cs == init + [c];
      var i := IndexOfKey(prev, KeyText(c.personId, c.direction));
      if i >= 0 {
        KeyTextInjective(prev[i].personId, prev[i].direction, c.personId, c.direction);
        UpsertExisting(prev, init, c, i);
      } else {
        forall j | 0 <= j < |prev|
          ensures !(prev[j].personId == c.personId && prev[j].direction == c.direction)
        {
          assert KeyText(prev[j].personId, prev[j].direction) != KeyText(c.personId, c.direction);
        }
        UpsertNew(prev, init, c);
      }
    }
  }

  // ----- the summary in terms of the split rows -----

  /** The summary counts row `r` for person `p` in direction `d`: an unsettled
      split of a transaction the user paid, owed by someone else (owes me), or
      an unsettled split the user owes to payer `p` (I owe). */
  predicate Counts(user: UserId, r: SplitRow, p: UserId, d: Direction)
  {
    && !r.isSettled
    && match d
       case OwesMe => r.payerId == user && r.debtorId == p && p != user
       case IOwe => r.debtorId == user && r.payerId == p
  }

  function RowWeight(user: UserId, p: UserId, d: Direction): SplitRow -> int
  {
    (r: SplitRow) => if Counts(user, r, p, d) then r.amount else 0
  }

  predicate Counted(rows: seq<SplitRow>, user: UserId, p: UserId, d: Direction)
  {
    exists i :: 0 <= i < |rows| && Counts(user, rows[i], p, d)
  }

  lemma CountedSnoc(init: seq<SplitRow>, x: SplitRow, user: UserId, p: UserId, d: Direction)
    ensures Counted(init + [x], user, p, d) <==> Counted(init, user, p, d) || Counts(user, x, p, d)
  {
    var rows := init + [x];
    if Counted(init, user, p, d) {
      var i :| 0 <= i < |init| && Counts(user, init[i], p, d);
      assert rows[i] == init[i];
    }
    if Counts(user, x, p, d) {
      assert rows[|init|] == x;
    }
    if Counted(rows, user, p, d) {
      var i :| 0 <= i < |rows| && Counts(user, rows[i], p, d);
      if i < |init| { assert init[i] == rows[i]; }
    }
  }

  lemma ContributesAppend(a: seq<Contribution>, b: seq<Contribution>, p: UserId, d: Direction)
    ensures Contributes(a + b, p, d) <==> Contributes(a, p, d) || Contributes(b, p, d)
  {
    var cs := a + b;
    if Contributes(a, p, d) {
      var j :| 0 <= j < |a| && a[j].personId == p && a[j].direction == d;
      assert cs[j] == a[j];
    }
    if Contributes(b, p, d) {
      var j :| 0 <= j < |b| && b[j].personId == p && b[j].direction == d;
      assert cs[|a| + j] == b[j];
    }
    if Contributes(cs, p, d) {
      var j :| 0 <= j < |cs| && cs[j].personId == p && cs[j].direction == d;
      if j < |a| { assert a[j] == cs[j]; } else { assert b[j - |a|] == cs[j]; }
    }
  }

  /** One more row adds at most one "owes me" contribution: the row's debtor,
      when the user paid it, it is unsettled, and the debtor is someone else. */
  lemma OwesMeSnoc(init: seq<SplitRow>, x: SplitRow, user: UserId)
    ensures OwesMeContributions(OwesMeQuery(init + [x], user), user)
         == OwesMeContributions(OwesMeQuery(init, user), user)
            + (if x.payerId == user && !x.isSettled && x.debtorId != user
               then [Contribution(x.debtorId, x.debtorName, x.amount, OwesMe)] else [])
  {
    var q := OwesMeQuery(init, user);
    assert (init + [x])[..|init|] == init;
    if x.payerId == user && !x.isSettled {
      assert OwesMeQuery(init + [x], user) == q + [x];
      assert (q + [x])[..|q|] == q;
    } else {
      assert OwesMeQuery(init + [x], user) == q + [];
      assert q + [] == q;
    }
  }

  /** The "owes me" loop over the first query adds up exactly the rows counted
      for the "owes me" direction. */
  lemma {:induction false} OwesMeHalf(rows: seq<SplitRow>, user: UserId, p: UserId, d: Direction)
    ensures Owed(OwesMeContributions(OwesMeQuery(rows, user), user), p, d)
         == (if d == OwesMe then SumBy(rows, RowWeight(user, p, d)) else 0)
    ensures Contributes(OwesMeContributions(OwesMeQuery(rows, user), user), p, d)
        <==> d == OwesMe && Counted(rows, user, p, d)
  {
    if |rows| > 0 {
      var init := rows[..|rows| - 1];
      var x := rows[|rows| - 1];
      assert rows == init + [x];
      OwesMeHalf(init, user, p, d);
      CountedSnoc(init, x, user, p, d);
      assert SumBy(rows, RowWeight(user, p, d)) == SumBy(init, RowWeight(user, p, d)) + RowWeight(user, p, d)(x);
      var before := OwesMeContributions(OwesMeQuery(init, user), user);
      OwesMeSnoc(init, x, user);
      if x.payerId == user && !x.isSettled && x.debtorId != user {
        var c := Contribution(x.debtorId, x.debtorName, x.amount, OwesMe);
        OwedSnoc(before, c, p, d);
        ContributesSnoc(before, c, p, d);
      } else {
        assert before + [] == before;
      }
    }
  }

  /** The "I owe" loop over the second query adds up exactly the rows counted
      for the "I owe" direction. */
  lemma {:induction false} IOweHalf(rows: seq<SplitRow>, user: UserId, p: UserId, d: Direction)
    ensures Owed(IOweContributions(IOweQuery(rows, user)), p, d)
         == (if d == IOwe then SumBy(rows, RowWeight(user, p, d)) else 0)
    ensures Contributes(IOweContributions(IOweQuery(rows, user)), p, d)
        <==> d == IOwe && Counted(rows, user, p, d)
  {
    if |rows| > 0 {
      var init := rows[..|rows| - 1];
      var x := rows[|rows| - 1];
      assert rows == init + [x];
      IOweHalf(init, user, p, d);
      CountedSnoc(init, x, user, p, d);
      assert SumBy(rows, RowWeight(user, p, d)) == SumBy(init, RowWeight(user, p, d)) + RowWeight(user, p, d)(x);
      var q := IOweQuery(init, user);
      var before := IOweContributions(q);
      if x.debtorId == user && !x.isSettled {
        assert IOweQuery(rows, user) == q + [x];
        assert (q + [x])[..|q|] == q;
        var c := Contribution(x.payerId, x.payerName, x.amount, IOwe);
        assert IOweContributions(q + [x]) == before + [c];
        OwedSnoc(before, c, p, d);
        ContributesSnoc(before, c, p, d);
      } else {
        assert IOweQuery(rows, user) == q + [];
        assert q + [] == q;
      }
    }
  }

  lemma ContributionsFromRows(rows: seq<SplitRow>, user: UserId, p: UserId, d: Direction)
    ensures Owed(Contributions(user, OwesMeQuery(rows, user), IOweQuery(rows, user)), p, d)
         == SumBy(rows, RowWeight(user, p, d))
    ensures Contributes(Contributions(user, OwesMeQuery(rows, user), IOweQuery(rows, user)), p, d)
        <==> Counted(rows, user, p, d)
  {
    var a := OwesMeContributions(OwesMeQuery(rows, user), user);
    var b := IOweContributions(IOweQuery(rows, user));
    OwesMeHalf(rows, user, p, d);
    IOweHalf(rows, user, p, d);
    SumByAppend(a, b, Weight(p, d));
    ContributesAppend(a, b, p, d);
  }

  /** The dashboard summary: at most one entry per (person, direction); an
      entry exists exactly when some row is counted for it, and its total is
      the sum of the amounts of those rows. */
  lemma SummaryMeaning(rows: seq<SplitRow>, user: UserId)
    ensures UniqueEntries(Summary(rows, user))
    ensures forall i :: 0 <= i < |Summary(rows, user)| ==>
      Summary(rows, user)[i].totalAmount
        == SumBy(rows, RowWeight(user, Summary(rows, user)[i].personId, Summary(rows, user)[i].direction))
    ensures forall p, d :: HasEntry(Summary(rows, user), p, d) <==> Counted(rows, user, p, d)
  {
    var cs := Contributions(user, OwesMeQuery(rows, user), IOweQuery(rows, user));
    AggregateMeaning(cs);
    forall p, d ensures Owed(cs, p, d) == SumBy(rows, RowWeight(user, p, d))
      && (Contributes(cs, p, d) <==> Counted(rows, user, p, d))
    {
      ContributionsFromRows(rows, user, p, d);
    }
  }

  /** Each dashboard column lists a person at most once. */
  lemma ColumnOnePerPerson(rows: seq<SplitRow>, user: UserId, d: Direction)
    ensures UniqueEntries(ListOf(Summary(rows, user), d))
    ensures forall e :: e in ListOf(Summary(rows, user), d) ==> e.direction == d
  {
    SummaryMeaning(rows, user);
    ListOfUnique(Summary(rows, user), d);
  }

  /** The user never appears in the "owes me" column. */
  lemma SelfNeverOwesMe(rows: seq<SplitRow>, user: UserId)
    ensures !HasEntry(Summary(rows, user), user, OwesMe)
    ensures forall e :: e in ListOf(Summary(rows, user), OwesMe) ==> e.personId != user
  {
    SummaryMeaning(rows, user);
    var S := Summary(rows, user);
    forall e | e in ListOf(S, OwesMe) ensures e.personId != user {
      var i :| 0 <= i < |S| && S[i] == e;
      assert HasEntry(S, e.personId, OwesMe);
    }
  }

  /** The "I owe" loop has no self-skip: an unsettled split the user both paid
      for and owes puts the user in the "I owe" column. */
  lemma SelfPaidSplitCountsAsIOwe(rows: seq<SplitRow>, user: UserId, k: nat)
    requires k < |rows| && rows[k].payerId == user && rows[k].debtorId == user && !rows[k].isSettled
    ensures HasEntry(Summary(rows, user), user, IOwe)
    ensures exists e :: e in ListOf(Summary(rows, user), IOwe) && e.personId == user
  {
    SummaryMeaning(rows, user);
    assert Counts(user, rows[k], user, IOwe);
    assert Counted(rows, user, user, IOwe);
    var S := Summary(rows, user);
    assert HasEntry(S, user, IOwe);
    var i :| 0 <= i < |S| && S[i].personId == user && S[i].direction == IOwe;
    assert S[i] in ListOf(S, IOwe);
  }

  /** The same person can be listed in both columns at once. */
  lemma BothDirections(rows: seq<SplitRow>, user: UserId, p: UserId, i: nat, j: nat)
    requires p != user
    requires i < |rows| && rows[i].payerId == user && rows[i].debtorId == p && !rows[i].isSettled
    requires j < |rows| && rows[j].payerId == p && rows[j].debtorId == user && !rows[j].isSettled
    ensures HasEntry(Summary(rows, user), p, OwesMe) && HasEntry(Summary(rows, user), p, IOwe)
  {
    SummaryMeaning(rows, user);
    assert Counts(user, rows[i], p, OwesMe);
    assert Counts(user, rows[j], p, IOwe);
  }

  /** Retrieval order does not matter: permuted rows give the same entries
      with the same totals. */
  lemma SummaryOrderIndependent(rows1: seq<SplitRow>, rows2: seq<SplitRow>, user: UserId)
    requires multiset(rows1) == multiset(rows2)
    ensures forall p, d :: HasEntry(Summary(rows1, user), p, d) <==> HasEntry(Summary(rows2, user), p, d)
    ensures forall i, j ::
      0 <= i < |Summary(rows1, user)| && 0 <= j < |Summary(rows2, user)|
      && Summary(rows1, user)[i].personId == Summary(rows2, user)[j].personId
      && Summary(rows1, user)[i].direction == Summary(rows2, user)[j].direction
      ==> Summary(rows1, user)[i].totalAmount == Summary(rows2, user)[j].totalAmount
  {
    SummaryMeaning(rows1, user);
    SummaryMeaning(rows2, user);
    forall p, d ensures Counted(rows1, user, p, d) <==> Counted(rows2, user, p, d) {
      if Counted(rows1, user, p, d) {
        var i :| 0 <= i < |rows1| && Counts(user, rows1[i], p, d);
        assert rows1[i] in multiset(rows2);
        var j :| 0 <= j < |rows2| && rows2[j] == rows1[i];
      }
      if Counted(rows2, user, p, d) {
        var i :| 0 <= i < |rows2| && Counts(user, rows2[i], p, d);
        assert rows2[i] in multiset(rows1);
        var j :| 0 <= j < |rows1| && rows1[j] == rows2[i];
      }
    }
    forall p, d ensures SumBy(rows1, RowWeight(user, p, d)) == SumBy(rows2, RowWeight(user, p, d)) {
      SumByPermutation(rows1, rows2, RowWeight(user, p, d));
    }
  }

  /** Only unsettled rows matter: dropping every settled row changes nothing. */
  function Unsettled(rows: seq<SplitRow>): (r: seq<SplitRow>)
    ensures forall x :: x in r <==> x in rows && !x.isSettled
  {
    if |rows| == 0 then []
    else
      var last := rows[|rows| - 1];
      assert rows == rows[..|rows| - 1] + [last];
      Unsettled(rows[..|rows| - 1]) + (if last.isSettled then [] else [last])
  }

  lemma {:induction false} QueriesIgnoreSettled(rows: seq<SplitRow>, user: UserId)
    ensures OwesMeQuery(Unsettled(rows), user) == OwesMeQuery(rows, user)
    ensures IOweQuery(Unsettled(rows), user) == IOweQuery(rows, user)
  {
    if |rows| > 0 {
      var init := rows[..|rows| - 1];
      var x := rows[|rows| - 1];
      QueriesIgnoreSettled(init, user);
      var u := Unsettled(init);
      if x.isSettled {
        assert Unsettled(rows) == u + [];
        assert u + [] == u;
      } else {
        assert Unsettled(rows) == u + [x];
        assert (u + [x])[..|u|] == u;
      }
    }
  }

  lemma SettledRowsIgnored(rows: seq<SplitRow>, user: UserId)
    ensures Summary(Unsettled(rows), user) == Summary(rows, user)
  {
    QueriesIgnoreSettled(rows, user);
  }

  /** There are never more entries than rows the two queries returned. */
  lemma EntryCountBound(user: UserId, owesMe: seq<SplitRow>, iOwe: seq<SplitRow>)
    ensures |Aggregate(Contributions(user, owesMe, iOwe))| <= |owesMe| + |iOwe|
  {
  }

  // ----- the self-skip applied to both loops -----

  /** Contributions about anyone but the user. */
  function WithoutSelf(cs: seq<Contribution>, user: UserId): (r: seq<Contribution>)
    ensures forall c :: c in r <==> c in cs && c.personId != user
  {
    if |cs| == 0 then []
    else
      var last := cs[|cs| - 1];
      assert cs == cs[..|cs| - 1] + [last];
      WithoutSelf(cs[..|cs| - 1], user) + (if last.personId == user then [] else [last])
  }

  /** The summary with the "skip self" rule of the first loop applied to the
      second loop as well. */
  function CorrectedSummary(rows: seq<SplitRow>, user: UserId): seq<DebtInfo>
  {
    Aggregate(WithoutSelf(Contributions(user, OwesMeQuery(rows, user), IOweQuery(rows, user)), user))
  }

  lemma {:induction false} OwedWithoutSelf(cs: seq<Contribution>, user: UserId, p: UserId, d: Direction)
    ensures Owed(WithoutSelf(cs, user), p, d) == (if p == user then 0 else Owed(cs, p, d))
  {
    if |cs| > 0 {
      var init := cs[..|cs| - 1];
      var c := cs[|cs| - 1];
      assert cs == init + [c];
      OwedWithoutSelf(init, user, p, d);
      OwedSnoc(init, c, p, d);
      var w := WithoutSelf(init, user);
      if c.personId == user {
        assert WithoutSelf(cs, user) == w + [];
        assert w + [] == w;
      } else {
        assert WithoutSelf(cs, user) == w + [c];
        OwedSnoc(w, c, p, d);
      }
    }
  }

  /** Dropping the user's own contributions leaves exactly the other people's
      (person, direction) pairs. */
  lemma ContributesWithoutSelf(cs: seq<Contribution>, user: UserId)
    ensures forall p, d :: Contributes(WithoutSelf(cs, user), p, d) <==> p != user && Contributes(cs, p, d)
  {
    var ws := WithoutSelf(cs, user);
    forall p, d ensures Contributes(ws, p, d) <==> p != user && Contributes(cs, p, d) {
      if Contributes(ws, p, d) {
        var j :| 0 <= j < |ws| && ws[j].personId == p && ws[j].direction == d;
        assert ws[j] in cs;
        var k :| 0 <= k < |cs| && cs[k] == ws[j];
      }
      if p != user && Contributes(cs, p, d) {
        var j :| 0 <= j < |cs| && cs[j].personId == p && cs[j].direction == d;
        assert cs[j] in ws;
        var k :| 0 <= k < |ws| && ws[k] == cs[j];
      }
    }
  }

  /** A person with an entry in the corrected summary is not the user, so the
      self-skip leaves their total as the rows give it. */
  lemma CorrectedEntryTotal(rows: seq<SplitRow>, user: UserId, p: UserId, d: Direction)
    requires HasEntry(CorrectedSummary(rows, user), p, d)
    ensures Owed(WithoutSelf(Contributions(user, OwesMeQuery(rows, user), IOweQuery(rows, user)), user), p, d)
         == SumBy(rows, RowWeight(user, p, d))
  {
    var cs := Contributions(user, OwesMeQuery(rows, user), IOweQuery(rows, user));
    AggregateMeaning(WithoutSelf(cs, user));
    ContributesWithoutSelf(cs, user);
    OwedWithoutSelf(cs, user, p, d);
    ContributionsFromRows(rows, user, p, d);
  }

  /** Every entry of the corrected summary totals the rows that count for it. */
  lemma CorrectedTotals(rows: seq<SplitRow>, user: UserId)
    ensures forall i :: 0 <= i < |CorrectedSummary(rows, user)| ==>
      CorrectedSummary(rows, user)[i].totalAmount
        == SumBy(rows, RowWeight(user, CorrectedSummary(rows, user)[i].personId, CorrectedSummary(rows, user)[i].direction))
  {
    var ws := WithoutSelf(Contributions(user, OwesMeQuery(rows, user), IOweQuery(rows, user)), user);
    AggregateMeaning(ws);
    forall i | 0 <= i < |Aggregate(ws)|
      ensures Aggregate(ws)[i].totalAmount
        == SumBy(rows, RowWeight(user, Aggregate(ws)[i].personId, Aggregate(ws)[i].direction))
    {
      var e := Aggregate(ws)[i];
      assert HasEntry(Aggregate(ws), e.personId, e.direction);
      CorrectedEntryTotal(rows, user, e.personId, e.direction);
    }
  }

  /** With the self-skip in both loops the user appears in neither column,
      and every other person's entries and totals are as before. */
  lemma CorrectedSummaryMeaning(rows: seq<SplitRow>, user: UserId)
    ensures forall d :: !HasEntry(CorrectedSummary(rows, user), user, d)
    ensures forall p, d :: p != user ==>
      (HasEntry(CorrectedSummary(rows, user), p, d) <==> HasEntry(Summary(rows, user), p, d))
    ensures forall i :: 0 <= i < |CorrectedSummary(rows, user)| ==>
      CorrectedSummary(rows, user)[i].totalAmount
        == SumBy(rows, RowWeight(user, CorrectedSummary(rows, user)[i].personId, CorrectedSummary(rows, user)[i].direction))
    ensures UniqueEntries(CorrectedSummary(rows, user))
  {
    var cs := Contributions(user, OwesMeQuery(rows, user), IOweQuery(rows, user));
    AggregateMeaning(cs);
    AggregateMeaning(WithoutSelf(cs, user));
    ContributesWithoutSelf(cs, user);
    CorrectedTotals(rows, user);
  }
}
