/** The expense state hook: the list shown to the user (`items`), a loading flag and the
    range selector, kept in step with the repository by re-reading it after every change.
    React state becomes the fields of a class and each callback a method. The clock and the
    id generator are outside the model: the current year and month and the fresh id are
    parameters. */
module ExpensesHook {
  import opened Text
  import opened Seqs
  import opened ExpenseModel
  import opened Repository

  datatype Range = ThisMonth | All

  /** No record is dated strictly before a later one: non-increasing by `dateISO`. */
  predicate NewestFirst(s: seq<Expense>)
  {
    forall i, j :: 0 <= i < j < |s| ==> !LexLess(s[i].dateISO, s[j].dateISO)
  }

  /** On well-formed ISO dates, newest first by string is newest first by calendar day. */
  lemma NewestFirstByCalendar(s: seq<Expense>, i: nat, j: nat)
    requires NewestFirst(s) && i < j < |s|
    requires IsDateISO(s[i].dateISO) && IsDateISO(s[j].dateISO)
    ensures !DateBefore(s[i].dateISO, s[j].dateISO)
  {
    DateOrderIsStringOrder(s[i].dateISO, s[j].dateISO);
  }

  /** The first `n` cells of `a` are newest first. */
  predicate SortedPrefix(a: array<Expense>, n: nat)
    reads a
    requires n <= a.Length
  {
    forall p, q :: 0 <= p < q < n ==> !LexLess(a[p].dateISO, a[q].dateISO)
  }

  /** The hook's in-place sort, with the comparator that puts the later `dateISO` first.
      For two records of the same date that comparator answers "after" in both orders, so
      nothing is promised about how such records end up: the contract is the order by date
      and a permutation. */
  method SortNewestFirst(a: array<Expense>)
    modifies a
    ensures NewestFirst(a[..])
    ensures multiset(a[..]) == multiset(old(a[..]))
  {
    var i := 0;
    while i < a.Length
      invariant 0 <= i <= a.Length
      invariant SortedPrefix(a, i)
      invariant multiset(a[..]) == multiset(old(a[..]))
    {
      InsertLast(a, i);
      i := i + 1;
    }
    assert SortedPrefix(a, a.Length);
  }

  /** One insertion step: moves `a[i]` left past the older records before it, so that the
      first `i + 1` cells are newest first; they hold the same records as before, and the
      cells after them are untouched. */
  method InsertLast(a: array<Expense>, i: nat)
    requires i < a.Length && SortedPrefix(a, i)
    modifies a
    ensures SortedPrefix(a, i + 1)
    ensures multiset(a[..]) == multiset(old(a[..]))
    ensures a[i + 1..] == old(a[i + 1..])
    ensures multiset(a[..i + 1]) == multiset(old(a[..i + 1]))
  {
    var j := i;
    while j > 0 && LexLess(a[j - 1].dateISO, a[j].dateISO)
      invariant 0 <= j <= i
      invariant forall p, q :: 0 <= p < q <= i && p != j && q != j ==> !LexLess(a[p].dateISO, a[q].dateISO)
      invariant forall q :: j < q <= i ==> LexLess(a[q].dateISO, a[j].dateISO)
      invariant multiset(a[..]) == multiset(old(a[..]))
      invariant a[i + 1..] == old(a[i + 1..])
      invariant multiset(a[..i + 1]) == multiset(old(a[..i + 1]))
    {
      a[j - 1], a[j] := a[j], a[j - 1];
      j := j - 1;
    }
    forall p, q | 0 <= p < q <= i
      ensures !LexLess(a[p].dateISO, a[q].dateISO)
    {
      if q == j {
        if p < j - 1 {
          NotLexLessTransitive(a[p].dateISO, a[j - 1].dateISO, a[j].dateISO);
        }
      } else if p == j {
        LexLessAsymmetric(a[q].dateISO, a[j].dateISO);
      }
    }
  }

  /** The year written out, a dash, and the month zero-padded to two digits: the prefix every
      date of that month starts with. */
  function MonthPrefix(year: int, month: nat): (p: string)
    ensures |p| >= |IntToString(year)| + 3
    ensures p[..|IntToString(year)|] == IntToString(year) && p[|IntToString(year)|] == '-'
  {
    IntToString(year) + "-" + PadStart(NatToString(month), 2, '0')
  }

  /** The records shown under `range`: all of them, or those dated in the given month. */
  function VisibleOf(items: seq<Expense>, range: Range, year: int, month: nat): (r: seq<Expense>)
    ensures |r| <= |items|
    ensures range == All ==> r == items
    ensures range == ThisMonth ==> forall i :: 0 <= i < |r| ==> StartsWith(r[i].dateISO, MonthPrefix(year, month))
  {
    if range == All then items
    else Filter(items, (e: Expense) => StartsWith(e.dateISO, MonthPrefix(year, month)))
  }

  /** A month from 1 to 12, zero-padded, is two digits that denote it. */
  lemma PaddedMonth(month: nat)
    requires 1 <= month <= 12
    ensures var m := PadStart(NatToString(month), 2, '0');
      |m| == 2 && AllDigits(m) && DecimalValue(m) == month
  {
    var s := NatToString(month);
    var m := PadStart(s, 2, '0');
    NatToStringValue(month);
    if month < 10 {
      assert s == [DigitChar(month)];
      assert Repeat('0', 1) == ['0'];
      assert m == ['0'] + s;
      assert m[..1] == ['0'] && m[1] == DigitChar(month);
      assert DecimalValue(['0']) == 0 by {
        assert ['0'][..0] == [];
      }
    } else {
      assert |s| == 2 by {
        assert |NatToString(month / 10)| == 1;
      }
      assert m == s;
    }
  }

  /** A string with a dash at position 4 starts with `y + "-" + m` (four and two characters)
      exactly when its pieces before and after the dash are `y` and `m`. */
  lemma PrefixPieces(d: string, y: string, m: string)
    requires |d| >= 7 && d[4] == '-' && |y| == 4 && |m| == 2
    ensures StartsWith(d, y + "-" + m) <==> d[0..4] == y && d[5..7] == m
  {
    var p := y + "-" + m;
    assert p[0..4] == y && p[5..7] == m;
    if StartsWith(d, p) {
      assert d[0..4] == d[..7][0..4] && d[5..7] == d[..7][5..7];
    }
    if d[0..4] == y && d[5..7] == m {
      assert d[..7] == d[0..4] + [d[4]] + d[5..7];
    }
  }

  lemma YearPiece(d: string, year: int)
    requires IsDateISO(d) && 1000 <= year <= 9999
    ensures |NatToString(year)| == 4
    ensures d[0..4] == NatToString(year) <==> YearOf(d) == year
  {
    FourDigitYear(year);
    NatToStringValue(year);
    DecimalOrder(d[0..4], NatToString(year));
  }

  lemma MonthPiece(d: string, month: nat)
    requires IsDateISO(d) && 1 <= month <= 12
    ensures |PadStart(NatToString(month), 2, '0')| == 2
    ensures d[5..7] == PadStart(NatToString(month), 2, '0') <==> MonthOf(d) == month
  {
    PaddedMonth(month);
    DecimalOrder(d[5..7], PadStart(NatToString(month), 2, '0'));
  }

  /** For a well-formed date and a four-digit year, the month prefix matches exactly the dates
      of that year and month. */
  lemma MonthPrefixSelectsMonth(d: string, year: int, month: nat)
    requires IsDateISO(d) && 1000 <= year <= 9999 && 1 <= month <= 12
    ensures StartsWith(d, MonthPrefix(year, month)) <==> YearOf(d) == year && MonthOf(d) == month
  {
    YearPiece(d, year);
    MonthPiece(d, month);
    PrefixPieces(d, NatToString(year), PadStart(NatToString(month), 2, '0'));
  }

  /** Under "This Month" the visible list is the order-preserving subsequence of `items` of
      the records dated in the given month (each kept as often as it occurs), and under "All"
      it is `items` itself. */
  lemma VisibleOfSpec(items: seq<Expense>, range: Range, year: int, month: nat, x: Expense)
    ensures range == All ==> VisibleOf(items, range, year, month) == items
    ensures IsSubsequence(VisibleOf(items, range, year, month), items)
    ensures range == ThisMonth ==>
      multiset(VisibleOf(items, range, year, month))[x]
        == if StartsWith(x.dateISO, MonthPrefix(year, month)) then multiset(items)[x] else 0
  {
    var inMonth := (e: Expense) => StartsWith(e.dateISO, MonthPrefix(year, month));
    if range == All {
      FilterKeepsAll(items, (e: Expense) => true);
      FilterIsSubsequence(items, (e: Expense) => true);
    } else {
      FilterIsSubsequence(items, inMonth);
      FilterCount(items, inMonth, x);
    }
  }

  /** The visible total depends only on which records there are, not on their order: the
      total after a refresh is the total over the stored list, however the sort broke ties. */
  lemma VisibleTotalIgnoresOrder(a: seq<Expense>, b: seq<Expense>, range: Range, year: int, month: nat)
    requires multiset(a) == multiset(b)
    ensures SumCents(VisibleOf(a, range, year, month)) == SumCents(VisibleOf(b, range, year, month))
  {
    if range == ThisMonth {
      FilterPermutation(a, b, (e: Expense) => StartsWith(e.dateISO, MonthPrefix(year, month)));
    }
    SumCentsPermutation(VisibleOf(a, range, year, month), VisibleOf(b, range, year, month));
  }

  class ExpensesState {
    const repo: AsyncStorageRepository
    var items: seq<Expense>
    var loading: bool
    var range: Range

    /** The state on first render, before the mount effect's refresh. */
    constructor (repo: AsyncStorageRepository)
      ensures this.repo == repo
      ensures items == [] && loading && range == ThisMonth
    {
      this.repo := repo;
      items := [];
      loading := true;
      range := ThisMonth;
    }

    /** Re-reads the repository and shows its list newest first. If reading fails, the error
        propagates with `loading` still set and `items` as they were. */
    method Refresh() returns (o: Outcome)
      modifies this
      ensures range == old(range)
      ensures old(repo.Stored()).Err? ==> o == Failed(old(repo.Stored()).error) && loading && items == old(items)
      ensures old(repo.Stored()).Ok? ==>
        o == Done && !loading && NewestFirst(items) && multiset(items) == multiset(old(repo.Stored()).value)
    {
      loading := true;
      var r := repo.GetAll();
      if r.Err? {
        return Failed(r.error);
      }
      var xs := r.value;
      var a := new Expense[|xs|](k requires 0 <= k < |xs| => xs[k]);
      assert a[..] == xs;
      SortNewestFirst(a);
      items := a[..];
      loading := false;
      o := Done;
    }

    /** Stores a new record under `freshId` with the given fields, appended to the stored list,
        then refreshes. A failure leaves the state and the slot as they were. */
    method Add(freshId: string, title: string, amountCents: int, category: Category, dateISO: string)
      returns (o: Outcome)
      modifies this, repo
      ensures range == old(range)
      ensures old(repo.Stored()).Err? ==>
        o == Failed(old(repo.Stored()).error) && repo.slot == old(repo.slot)
        && items == old(items) && loading == old(loading)
      ensures old(repo.Stored()).Ok? ==>
        var added := Expense(freshId, title, amountCents, category, dateISO);
        o == Done && repo.slot == Encode(old(repo.Stored()).value + [added])
        && !loading && NewestFirst(items)
        && multiset(items) == multiset(old(repo.Stored()).value) + multiset{added}
    {
      var exp := Expense(freshId, title, amountCents, category, dateISO);
      o := repo.Add(exp);
      if o.Failed? {
        return;
      }
      o := Refresh();
    }

    /** Removes the records with `id` from the store, then refreshes. */
    method Remove(id: string) returns (o: Outcome)
      modifies this, repo
      ensures range == old(range)
      ensures old(repo.Stored()).Err? ==>
        o == Failed(old(repo.Stored()).error) && repo.slot == old(repo.slot)
        && items == old(items) && loading == old(loading)
      ensures old(repo.Stored()).Ok? ==>
        o == Done && repo.slot == Encode(WithoutId(old(repo.Stored()).value, id))
        && !loading && NewestFirst(items)
        && multiset(items) == multiset(WithoutId(old(repo.Stored()).value, id))
    {
      o := repo.Remove(id);
      if o.Failed? {
        return;
      }
      o := Refresh();
    }

    /** Replaces the stored record with `exp.id` by `exp`, then refreshes. */
    method Update(exp: Expense) returns (o: Outcome)
      modifies this, repo
      ensures range == old(range)
      ensures old(repo.Stored()).Err? ==>
        o == Failed(old(repo.Stored()).error) && repo.slot == old(repo.slot)
        && items == old(items) && loading == old(loading)
      ensures old(repo.Stored()).Ok? ==>
        o == Done && repo.slot == Encode(ReplaceFirst(old(repo.Stored()).value, exp))
        && !loading && NewestFirst(items)
        && multiset(items) == multiset(ReplaceFirst(old(repo.Stored()).value, exp))
    {
      o := repo.Update(exp);
      if o.Failed? {
        return;
      }
      o := Refresh();
    }

    /** Changes only the range selector; nothing is read or written. */
    method SetRange(r: Range)
      modifies this`range
      ensures range == r && items == old(items) && loading == old(loading)
    {
      range := r;
    }

    /** The derived `visible` list for the given current year and month. */
    function Visible(year: int, month: nat): (r: seq<Expense>)
      reads this
      ensures |r| <= |items|
      ensures range == All ==> r == items
      ensures range == ThisMonth ==> forall i :: 0 <= i < |r| ==> StartsWith(r[i].dateISO, MonthPrefix(year, month))
    {
      VisibleOf(items, range, year, month)
    }

    /** The derived `totalCents`: the sum over the visible records. */
    function TotalCents(year: int, month: nat): (total: int)
      reads this
      ensures Visible(year, month) == [] ==> total == 0
      ensures (forall k :: 0 <= k < |items| ==> items[k].amountCents >= 0) ==> total >= 0
    {
      var v := VisibleOf(items, range, year, month);
      assert forall i :: 0 <= i < |v| ==> v[i] in items by {
        forall i | 0 <= i < |v|
          ensures v[i] in items
        {
          VisibleOfSpec(items, range, year, month, v[i]);
          assert v[i] in multiset(v);
        }
      }
      SumCents(Visible(year, month))
    }
  }
}
