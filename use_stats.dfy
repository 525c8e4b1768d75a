/** The statistics derived for the insights screen: cents per category, in the order the
    categories first appear, and the grand total. Everything stays in whole cents; the
    conversion to dollars for the chart is outside the model. */
module Stats {
  import opened ExpenseModel
  import Seqs

  /** One entry of the map's entry list: a category and its summed cents. */
  datatype CategoryTotal = CategoryTotal(category: Category, cents: int)

  /** The distinct categories of `xs`, in the order of their first occurrence, which is the
      order a JavaScript `Map` keeps its keys in when they are set one record at a time. */
  function FirstSeen(xs: seq<Expense>): (cs: seq<Category>)
    ensures forall c :: c in cs <==> exists k :: 0 <= k < |xs| && xs[k].category == c
    ensures forall i, j :: 0 <= i < j < |cs| ==> cs[i] != cs[j]
    decreases |xs|
  {
    if xs == [] then []
    else
      var cs := FirstSeen(xs[..|xs| - 1]);
      var c := xs[|xs| - 1].category;
      if c in cs then cs else cs + [c]
  }

  /** The sum of `amountCents` over the records of category `c`. */
  function CategoryCents(xs: seq<Expense>, c: Category): (total: int)
    ensures (forall k :: 0 <= k < |xs| ==> xs[k].amountCents >= 0) ==> 0 <= total <= SumCents(xs)
    decreases |xs|
  {
    if xs == [] then 0
    else CategoryCents(xs[..|xs| - 1], c) + (if xs[|xs| - 1].category == c then xs[|xs| - 1].amountCents else 0)
  }

  /** The first position of a record of category `c`, or `|xs|` if there is none. */
  function FirstPosition(xs: seq<Expense>, c: Category): (p: nat)
    ensures p <= |xs|
    ensures p < |xs| ==> xs[p].category == c
    ensures forall k :: 0 <= k < p ==> xs[k].category != c
    decreases |xs|
  {
    if xs == [] then 0
    else if xs[0].category == c then 0
    else 1 + FirstPosition(xs[1..], c)
  }

  /** One entry per category of `cs`, in that order, each with the total of its records in `xs`. */
  function Totals(xs: seq<Expense>, cs: seq<Category>): (r: seq<CategoryTotal>)
    ensures |r| == |cs|
    ensures forall k :: 0 <= k < |cs| ==> r[k] == CategoryTotal(cs[k], CategoryCents(xs, cs[k]))
    decreases |cs|
  {
    if cs == [] then []
    else Totals(xs, cs[..|cs| - 1]) + [CategoryTotal(cs[|cs| - 1], CategoryCents(xs, cs[|cs| - 1]))]
  }

  /** What `byCategory` computes, in cents. */
  function Breakdown(xs: seq<Expense>): (r: seq<CategoryTotal>)
    ensures r == [] <==> xs == []
  {
    Totals(xs, FirstSeen(xs))
  }

  /** The sum of the cents of a list of entries. */
  function SliceCents(slices: seq<CategoryTotal>): int
    decreases |slices|
  {
    if slices == [] then 0 else SliceCents(slices[..|slices| - 1]) + slices[|slices| - 1].cents
  }

  /** `byCategory` before the conversion to dollars: the grouping loop, then the map's
      entries in the map's order. */
  method ByCategory(expenses: seq<Expense>) returns (slices: seq<CategoryTotal>)
    ensures slices == Breakdown(expenses)
  {
    var keys, cents := Accumulate(expenses);
    slices := [];
    var k := 0;
    while k < |keys|
      invariant 0 <= k <= |keys|
      invariant slices == Totals(expenses, keys[..k])
    {
      assert keys[..k + 1][..k] == keys[..k];
      slices := slices + [CategoryTotal(keys[k], cents[keys[k]])];
      k := k + 1;
    }
    assert keys[..k] == keys;
  }

  /** The state of the grouping loop after the first `i` records: `keys` is the map's key
      order and `cents` its contents. */
  predicate Grouped(xs: seq<Expense>, i: nat, keys: seq<Category>, cents: map<Category, int>)
    requires i <= |xs|
  {
    && keys == FirstSeen(xs[..i])
    && (forall c :: c in cents <==> c in keys)
    && (forall c :: c in cents ==> cents[c] == CategoryCents(xs[..i], c))
  }

  /** The loop of `byCategory` that adds each record to a `Map` from category to cents. A key
      set for the first time goes to the end of the map's order, which `keys` records. */
  method Accumulate(expenses: seq<Expense>) returns (keys: seq<Category>, cents: map<Category, int>)
    ensures keys == FirstSeen(expenses)
    ensures forall c :: c in cents <==> c in keys
    ensures forall c :: c in cents ==> cents[c] == CategoryCents(expenses, c)
  {
    keys, cents := [], map[];
    var i := 0;
    while i < |expenses|
      invariant 0 <= i <= |expenses|
      invariant Grouped(expenses, i, keys, cents)
    {
      keys, cents := AddRecord(expenses, i, keys, cents);
      i := i + 1;
    }
    GroupedAll(expenses, keys, cents);
  }

  /** The body of the grouping loop for record `i`: its amount is added to its category's
      entry, where a key not yet in the map starts from zero and goes to the end of the key
      order. */
  method AddRecord(xs: seq<Expense>, i: nat, keys: seq<Category>, cents: map<Category, int>)
    returns (keys': seq<Category>, cents': map<Category, int>)
    requires i < |xs| && Grouped(xs, i, keys, cents)
    ensures Grouped(xs, i + 1, keys', cents')
  {
    var e := xs[i];
    keys' := keys;
    var prior := if e.category in cents then cents[e.category] else 0;
    if e.category !in cents {
      keys' := keys + [e.category];
    }
    cents' := cents[e.category := prior + e.amountCents];
    GroupStep(xs, i, keys, cents, keys', cents');
  }

  /** After the last record the loop state describes the whole input. */
  lemma GroupedAll(xs: seq<Expense>, keys: seq<Category>, cents: map<Category, int>)
    requires Grouped(xs, |xs|, keys, cents)
    ensures keys == FirstSeen(xs)
    ensures forall c :: c in cents <==> c in keys
    ensures forall c :: c in cents ==> cents[c] == CategoryCents(xs, c)
  {
    assert xs[..|xs|] == xs;
  }

  /** One iteration of the grouping loop keeps `Grouped`: the record's category is appended
      to the key order if it is new, and its amount is added to that key's sum. */
  lemma GroupStep(xs: seq<Expense>, i: nat, keys: seq<Category>, cents: map<Category, int>,
                  keys': seq<Category>, cents': map<Category, int>)
    requires i < |xs| && Grouped(xs, i, keys, cents)
    requires keys' == if xs[i].category in cents then keys else keys + [xs[i].category]
    requires cents' == cents[xs[i].category := (if xs[i].category in cents then cents[xs[i].category] else 0) + xs[i].amountCents]
    ensures Grouped(xs, i + 1, keys', cents')
  {
    GroupStepKeys(xs, i, keys, cents, keys');
    GroupStepSums(xs, i, cents, cents');
  }

  /** The key order after one more record. */
  lemma GroupStepKeys(xs: seq<Expense>, i: nat, keys: seq<Category>, cents: map<Category, int>, keys': seq<Category>)
    requires i < |xs| && keys == FirstSeen(xs[..i]) && forall c :: c in cents <==> c in keys
    requires keys' == if xs[i].category in cents then keys else keys + [xs[i].category]
    ensures keys' == FirstSeen(xs[..i + 1])
    ensures forall c :: c in cents[xs[i].category := 0] <==> c in keys'
  {
    PrefixStep(xs, i);
  }

  /** The sums after one more record. */
  lemma GroupStepSums(xs: seq<Expense>, i: nat, cents: map<Category, int>, cents': map<Category, int>)
    requires i < |xs| && forall c :: c in cents <==> c in FirstSeen(xs[..i])
    requires forall c :: c in cents ==> cents[c] == CategoryCents(xs[..i], c)
    requires cents' == cents[xs[i].category := (if xs[i].category in cents then cents[xs[i].category] else 0) + xs[i].amountCents]
    ensures forall c :: c in cents' ==> cents'[c] == CategoryCents(xs[..i + 1], c)
  {
    var c := xs[i].category;
    PrefixStep(xs, i);
    if c !in cents {
      CategoryCentsAbsent(xs[..i], c);
    }
  }

  /** How the grouping of a prefix changes when it grows by the next record. */
  lemma PrefixStep(xs: seq<Expense>, i: nat)
    requires i < |xs|
    ensures FirstSeen(xs[..i + 1])
         == if xs[i].category in FirstSeen(xs[..i]) then FirstSeen(xs[..i]) else FirstSeen(xs[..i]) + [xs[i].category]
    ensures forall c ::
      CategoryCents(xs[..i + 1], c) == CategoryCents(xs[..i], c) + (if xs[i].category == c then xs[i].amountCents else 0)
  {
    assert xs[..i + 1][..i] == xs[..i];
  }

  /** A category no record has sums to zero. */
  lemma {:induction false} CategoryCentsAbsent(xs: seq<Expense>, c: Category)
    requires forall k :: 0 <= k < |xs| ==> xs[k].category != c
    ensures CategoryCents(xs, c) == 0
    decreases |xs|
  {
    if xs != [] {
      CategoryCentsAbsent(xs[..|xs| - 1], c);
    }
  }

  /** The entries come in the order the categories first occur in the input. */
  lemma {:induction false} FirstSeenOrder(xs: seq<Expense>, i: nat, j: nat)
    requires i < j < |FirstSeen(xs)|
    ensures FirstPosition(xs, FirstSeen(xs)[i]) < FirstPosition(xs, FirstSeen(xs)[j]) < |xs|
    decreases |xs|
  {
    var n := |xs| - 1;
    var ys := xs[..n];
    var cs, fs := FirstSeen(ys), FirstSeen(xs);
    var c := xs[n].category;
    assert fs == if c in cs then cs else cs + [c];
    assert fs[i] == cs[i];
    var ci, cj := fs[i], fs[j];
    FirstPositionPrefix(xs, n, ci);
    FirstPositionPrefix(xs, n, cj);
    if j < |cs| {
      assert fs[j] == cs[j];
      FirstSeenOrder(ys, i, j);
    } else {
      // cj is new at the last record, ci already occurs in ys
      assert cj == c && c !in cs && ci in cs;
      assert FirstPosition(ys, cj) == n;
      assert FirstPosition(ys, ci) < n by {
        var k :| 0 <= k < |ys| && ys[k].category == ci;
      }
    }
  }

  /** The first position of a category in a prefix is its first position in the whole list,
      as long as it occurs in the prefix, and the prefix's length otherwise. */
  lemma FirstPositionPrefix(xs: seq<Expense>, n: nat, c: Category)
    requires n <= |xs|
    ensures FirstPosition(xs[..n], c) == if FirstPosition(xs, c) < n then FirstPosition(xs, c) else n
  {
    var p, q := FirstPosition(xs[..n], c), FirstPosition(xs, c);
    if q < n {
      assert xs[..n][q] == xs[q];
    }
    if p < n {
      assert xs[p] == xs[..n][p];
    }
  }

  /** Adding one more record to the input raises the sum over any list of distinct
      categories by that record's amount when its category is in the list, else not at all. */
  lemma {:induction false} SliceCentsStep(ys: seq<Expense>, e: Expense, cs: seq<Category>)
    requires forall i, j :: 0 <= i < j < |cs| ==> cs[i] != cs[j]
    ensures SliceCents(Totals(ys + [e], cs))
         == SliceCents(Totals(ys, cs)) + (if e.category in cs then e.amountCents else 0)
    decreases |cs|
  {
    if cs != [] {
      var m := |cs| - 1;
      SliceCentsStep(ys, e, cs[..m]);
      assert (ys + [e])[..|ys + [e]| - 1] == ys;
      assert Totals(ys + [e], cs)[..m] == Totals(ys + [e], cs[..m]);
      assert Totals(ys, cs)[..m] == Totals(ys, cs[..m]);
      assert e.category in cs <==> e.category in cs[..m] || e.category == cs[m] by {
        assert cs == cs[..m] + [cs[m]];
      }
      assert e.category == cs[m] ==> e.category !in cs[..m];
    }
  }

  /** The per-category totals add up to the grand total `topLine.total` (in cents): no
      record is lost or counted twice by the grouping. */
  lemma {:induction false} BreakdownTotal(xs: seq<Expense>)
    ensures SliceCents(Breakdown(xs)) == SumCents(xs)
    decreases |xs|
  {
    if xs != [] {
      var n := |xs| - 1;
      var ys, e := xs[..n], xs[n];
      assert xs == ys + [e];
      BreakdownTotal(ys);
      var cs := FirstSeen(ys);
      SliceCentsStep(ys, e, cs);
      if e.category in cs {
        assert FirstSeen(xs) == cs;
      } else {
        var cs' := cs + [e.category];
        assert FirstSeen(xs) == cs';
        assert cs'[..|cs|] == cs;
        var t := Totals(xs, cs');
        assert t[..|cs|] == Totals(xs, cs);
        CategoryCentsAbsent(ys, e.category);
        assert t[|cs|].cents == e.amountCents;
        assert SliceCents(t) == SliceCents(Totals(xs, cs)) + e.amountCents;
      }
    }
  }

  /** The records of category `c`, as a filter predicate. */
  function InCategory(c: Category): Expense -> bool
  {
    (e: Expense) => e.category == c
  }

  /** The Map's running sum for a category is the plain sum over the records of that
      category: `xs.filter(e => e.category === c)` summed. */
  lemma {:induction false} CategoryCentsIsFilteredSum(xs: seq<Expense>, c: Category)
    ensures CategoryCents(xs, c) == SumCents(Seqs.Filter(xs, InCategory(c)))
    decreases |xs|
  {
    if xs != [] {
      var n := |xs| - 1;
      var ys, x := xs[..n], xs[n];
      assert xs == ys + [x];
      Seqs.FilterConcat(ys, [x], InCategory(c));
      CategoryCentsIsFilteredSum(ys, c);
      var tail := Seqs.Filter([x], InCategory(c));
      assert tail == if x.category == c then [x] else [] by {
        assert [x][1..] == [];
      }
      SumCentsConcat(Seqs.Filter(ys, InCategory(c)), tail);
      assert SumCents([x]) == x.amountCents by {
        assert [x][..0] == [];
      }
    }
  }

  /** A category has an entry in `byCategory` exactly when some record has it, and no
      category has two entries: there is no zero-filling and no duplicate. */
  lemma BreakdownCategories(xs: seq<Expense>, c: Category)
    ensures (exists i :: 0 <= i < |Breakdown(xs)| && Breakdown(xs)[i].category == c)
        <==> (exists k :: 0 <= k < |xs| && xs[k].category == c)
    ensures forall i, j :: 0 <= i < j < |Breakdown(xs)| ==> Breakdown(xs)[i].category != Breakdown(xs)[j].category
  {
    var cs := FirstSeen(xs);
    var b := Breakdown(xs);
    assert b == Totals(xs, cs);
    if exists k :: 0 <= k < |xs| && xs[k].category == c {
      assert c in cs;
      var i :| 0 <= i < |cs| && cs[i] == c;
      assert b[i].category == c;
    }
    if exists i :: 0 <= i < |b| && b[i].category == c {
      var i :| 0 <= i < |b| && b[i].category == c;
      assert cs[i] == c && c in cs;
      var k :| 0 <= k < |xs| && xs[k].category == c;
    }
  }

  /** The entries come in the order in which their categories first occur in the input. */
  lemma BreakdownOrder(xs: seq<Expense>, i: nat, j: nat)
    requires i < j < |Breakdown(xs)|
    ensures FirstPosition(xs, Breakdown(xs)[i].category) < FirstPosition(xs, Breakdown(xs)[j].category) < |xs|
  {
    FirstSeenOrder(xs, i, j);
  }

  /** Each entry's cents are the sum over the records of its category. */
  lemma BreakdownCents(xs: seq<Expense>, i: nat)
    requires i < |Breakdown(xs)|
    ensures Breakdown(xs)[i].cents == SumCents(Seqs.Filter(xs, InCategory(Breakdown(xs)[i].category)))
  {
    CategoryCentsIsFilteredSum(xs, Breakdown(xs)[i].category);
  }

  /** An empty input has no categories and a total of zero. */
  lemma BreakdownEmpty()
    ensures Breakdown([]) == [] && SumCents([]) == 0
  {
  }
}
