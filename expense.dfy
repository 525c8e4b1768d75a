/** The expense record shared by the repository, the hook and the statistics, with the two
    facts about its fields the rest of the model leans on: money is a whole number of cents
    and summed exactly, and an ISO calendar date compares as a string the way it compares
    as a date. */
module ExpenseModel {
  import opened Text
  import Seqs

  /** The closed set of categories: every expense is in exactly one of these. */
  datatype Category = Food | Transport | Bills | Shopping | Fun | Other

  /** One expense. `amountCents` is a whole number of cents; `dateISO` is a calendar day
      written "YYYY-MM-DD". Nothing in the record type enforces either: the date format is
      the predicate `IsDateISO` below. */
  datatype Expense = Expense(id: string, title: string, amountCents: int, category: Category, dateISO: string)

  /** The total in cents, folded from the left starting at zero, so the last record is added
      last. With no negative amounts the total is never negative and no record exceeds it. */
  function SumCents(xs: seq<Expense>): (total: int)
    ensures (forall k :: 0 <= k < |xs| ==> xs[k].amountCents >= 0) ==>
      total >= 0 && forall k :: 0 <= k < |xs| ==> xs[k].amountCents <= total
    decreases |xs|
  {
    if xs == [] then 0 else SumCents(xs[..|xs| - 1]) + xs[|xs| - 1].amountCents
  }

  lemma {:induction false} SumCentsConcat(a: seq<Expense>, b: seq<Expense>)
    ensures SumCents(a + b) == SumCents(a) + SumCents(b)
    decreases |b|
  {
    if b == [] {
      assert a + b == a;
    } else {
      var n := |b| - 1;
      assert (a + b)[..|a + b| - 1] == a + b[..n];
      SumCentsConcat(a, b[..n]);
    }
  }

  /** The total does not depend on the order of the records: sorting never changes it. */
  lemma {:induction false} SumCentsPermutation(a: seq<Expense>, b: seq<Expense>)
    requires multiset(a) == multiset(b)
    ensures SumCents(a) == SumCents(b)
    decreases |a|
  {
    if a != [] {
      var n := |a| - 1;
      var x := a[n];
      assert a == a[..n] + [x];
      assert x in multiset(b);
      var i :| 0 <= i < |b| && b[i] == x;
      var rest := b[..i] + b[i + 1..];
      assert b == b[..i] + [x] + b[i + 1..];
      assert multiset(a[..n]) == multiset(rest) by {
        assert multiset(a) == multiset(a[..n]) + multiset{x};
        assert multiset(b) == multiset(b[..i]) + multiset{x} + multiset(b[i + 1..]);
        assert multiset(rest) == multiset(b[..i]) + multiset(b[i + 1..]);
        forall y
          ensures multiset(a[..n])[y] == multiset(rest)[y]
        {
          assert multiset(a)[y] == multiset(b)[y];
        }
        Seqs.MultisetExt(multiset(a[..n]), multiset(rest));
      }
      SumCentsPermutation(a[..n], rest);
      SumCentsConcat(b[..i] + [x], b[i + 1..]);
      SumCentsConcat(b[..i], [x]);
      SumCentsConcat(b[..i], b[i + 1..]);
      assert SumCents([x]) == x.amountCents by {
        assert [x][..0] == [];
      }
    }
  }

  /** "YYYY-MM-DD": four digits, a dash, two digits, a dash, two digits. */
  predicate IsDateISO(s: string)
  {
    |s| == 10 && AllDigits(s[0..4]) && s[4] == '-' && AllDigits(s[5..7]) && s[7] == '-' && AllDigits(s[8..10])
  }

  function YearOf(s: string): nat
    requires IsDateISO(s)
  {
    DecimalValue(s[0..4])
  }

  function MonthOf(s: string): nat
    requires IsDateISO(s)
  {
    DecimalValue(s[5..7])
  }

  function DayOf(s: string): nat
    requires IsDateISO(s)
  {
    DecimalValue(s[8..10])
  }

  /** Calendar order: by year, then month, then day. */
  predicate DateBefore(a: string, b: string)
    requires IsDateISO(a) && IsDateISO(b)
  {
    YearOf(a) < YearOf(b)
    || (YearOf(a) == YearOf(b) && MonthOf(a) < MonthOf(b))
    || (YearOf(a) == YearOf(b) && MonthOf(a) == MonthOf(b) && DayOf(a) < DayOf(b))
  }

  /** An ISO date cut at its dashes. */
  lemma DatePieces(s: string)
    requires IsDateISO(s)
    ensures s == s[0..4] + s[4..]
    ensures s[4..] == "-" + s[5..] && s[5..] == s[5..7] + s[7..]
    ensures s[7..] == "-" + s[8..10]
  {
    assert s[4..] == [s[4]] + s[5..];
    assert s[7..] == [s[7]] + s[8..];
  }

  /** Comparing two ISO dates as strings (JavaScript's `<`) is comparing them as calendar
      days, and two ISO date strings are equal exactly when they name the same day. */
  lemma DateOrderIsStringOrder(a: string, b: string)
    requires IsDateISO(a) && IsDateISO(b)
    ensures LexLess(a, b) <==> DateBefore(a, b)
    ensures a == b <==> (YearOf(a) == YearOf(b) && MonthOf(a) == MonthOf(b) && DayOf(a) == DayOf(b))
  {
    DateStringOrder(a, b);
    DateStringEquality(a, b);
  }

  lemma DateStringOrder(a: string, b: string)
    requires IsDateISO(a) && IsDateISO(b)
    ensures LexLess(a, b) <==> DateBefore(a, b)
  {
    DecimalOrder(a[0..4], b[0..4]);
    DecimalOrder(a[5..7], b[5..7]);
    DecimalOrder(a[8..10], b[8..10]);
    DatePieces(a);
    DatePieces(b);
    LexLessConcat(a[0..4], a[4..], b[0..4], b[4..]);
    LexLessConcat("-", a[5..], "-", b[5..]);
    LexLessConcat(a[5..7], a[7..], b[5..7], b[7..]);
    LexLessConcat("-", a[8..10], "-", b[8..10]);
  }

  lemma DateStringEquality(a: string, b: string)
    requires IsDateISO(a) && IsDateISO(b)
    ensures a == b <==> (YearOf(a) == YearOf(b) && MonthOf(a) == MonthOf(b) && DayOf(a) == DayOf(b))
  {
    DecimalOrder(a[0..4], b[0..4]);
    DecimalOrder(a[5..7], b[5..7]);
    DecimalOrder(a[8..10], b[8..10]);
    DatePieces(a);
    DatePieces(b);
  }
}
