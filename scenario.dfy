/** A client of the hook and the statistics: two records added to an empty store, as the
    user would enter them in August 2025. */
module Scenario {
  import opened Text
  import opened Seqs
  import opened ExpenseModel
  import opened Repository
  import opened ExpensesHook
  import opened Stats

  method CoffeeAndBus()
  {
    var repo := new AsyncStorageRepository(Missing);
    var state := new ExpensesState(repo);
    var coffee := Expense("a1", "Coffee", 450, Food, "2025-08-24");
    var bus := Expense("b2", "Bus", 250, Transport, "2025-08-20");
    assert repo.Stored() == Ok([]);
    var o := state.Add("a1", "Coffee", 450, Food, "2025-08-24");
    assert [] + [coffee] == [coffee];
    assert repo.Stored() == Ok([coffee]);
    o := state.Add("b2", "Bus", 250, Transport, "2025-08-20");
    assert [coffee] + [bus] == [coffee, bus];
    assert repo.Stored() == Ok([coffee, bus]);
    assert multiset(state.items) == multiset{coffee, bus};

    // Distinct dates leave the sort no choice: the newer record comes first.
    OnlyOrder(state.items, coffee, bus);
    assert state.items == [coffee, bus];

    // Both are dated in August 2025, so both are visible under "This Month".
    var year, month := 2025, 8;
    AugustPrefix(year, month);
    BothInAugust(coffee, bus, year, month);
    assert state.Visible(year, month) == [coffee, bus];
    PairTotal(coffee, bus);
    assert state.TotalCents(year, month) == 700;
  }

  /** The insights screen groups the list newest first: Food, then Transport. */
  method CoffeeAndBusByCategory()
  {
    var coffee := Expense("a1", "Coffee", 450, Food, "2025-08-24");
    var bus := Expense("b2", "Bus", 250, Transport, "2025-08-20");
    var slices := ByCategory([coffee, bus]);
    FoodThenTransport(coffee, bus);
    assert slices == [CategoryTotal(Food, 450), CategoryTotal(Transport, 250)];
  }

  /** The Coffee record of 2025-08-24 and the Bus record of 2025-08-20 can be sorted newest
      first in one way only. */
  lemma OnlyOrder(items: seq<Expense>, newer: Expense, older: Expense)
    requires newer.dateISO == "2025-08-24" && older.dateISO == "2025-08-20"
    requires NewestFirst(items) && multiset(items) == multiset{newer, older}
    ensures items == [newer, older]
  {
    assert LexLess(older.dateISO, newer.dateISO) by {
      assert older.dateISO == "2025-08-2" + "0" && newer.dateISO == "2025-08-2" + "4";
      LexLessConcat("2025-08-2", "0", "2025-08-2", "4");
    }
    LexLessAsymmetric(older.dateISO, newer.dateISO);
    assert |items| == 2 by {
      assert |multiset(items)| == 2;
    }
    assert items[0] in multiset(items) && items[1] in multiset(items);
    assert items == [newer, older];
  }

  lemma AugustPrefix(year: int, month: nat)
    requires year == 2025 && month == 8
    ensures MonthPrefix(year, month) == "2025-08"
  {
    assert NatToString(2) == "2";
    assert NatToString(20) == NatToString(2) + [DigitChar(0)] == "20";
    assert NatToString(202) == NatToString(20) + [DigitChar(2)] == "202";
    assert NatToString(2025) == NatToString(202) + [DigitChar(5)] == "2025";
    assert NatToString(8) == "8";
    assert PadStart("8", 2, '0') == "08";
  }

  /** Both records are dated in August 2025, so the "This Month" filter keeps both. */
  lemma BothInAugust(x: Expense, y: Expense, year: int, month: nat)
    requires MonthPrefix(year, month) == "2025-08"
    requires x.dateISO == "2025-08-24" && y.dateISO == "2025-08-20"
    ensures VisibleOf([x, y], ThisMonth, year, month) == [x, y]
  {
    assert x.dateISO[..7] == "2025-08" && y.dateISO[..7] == "2025-08";
    FilterKeepsAll([x, y], (e: Expense) => StartsWith(e.dateISO, MonthPrefix(year, month)));
  }

  lemma PairTotal(x: Expense, y: Expense)
    requires x.amountCents == 450 && y.amountCents == 250
    ensures SumCents([x, y]) == 700
  {
    assert [x, y][..1] == [x] && [x][..0] == [];
    assert SumCents([x]) == 450;
  }

  lemma FoodThenTransport(x: Expense, y: Expense)
    requires x.category == Food && x.amountCents == 450 && y.category == Transport && y.amountCents == 250
    ensures Breakdown([x, y]) == [CategoryTotal(Food, 450), CategoryTotal(Transport, 250)]
  {
    assert [x, y][..1] == [x] && [x][..0] == [];
    assert FirstSeen([x]) == [Food];
    assert FirstSeen([x, y]) == [Food, Transport];
    assert CategoryCents([x], Food) == 450 && CategoryCents([x], Transport) == 0;
    assert CategoryCents([x, y], Food) == 450;
    assert CategoryCents([x, y], Transport) == 250;
  }
}
