/**
 * The year report: the transactions dated in the year, the income and
 * expense totals and their difference, and the expenses per category,
 * listed by category name.
 */
module Reports {
  import opened Wrappers
  import opened Seqs
  import opened PyStr
  import opened Dates
  import opened Records
  import opened Home

  // ---------------------------------------------------------------------
  // Which rows the report reads

  /** `tx_date >= date(year, 1, 1) and tx_date < date(year + 1, 1, 1)`. */
  predicate InYear(t: Transaction, year: int)
  {
    AtOrBefore(Date(year, 1, 1), t.txDate) && Before(t.txDate, Date(year + 1, 1, 1))
  }

  function InYearOf(year: int): Transaction -> bool
  {
    (t: Transaction) => InYear(t, year)
  }

  /** The `WHERE` of the report query, in store order. */
  function YearRows(stored: seq<Transaction>, year: int): (r: seq<Transaction>)
    ensures forall t :: multiset(r)[t] == if InYear(t, year) then multiset(stored)[t] else 0
  {
    Filter(stored, InYearOf(year))
  }

  /**
   * A stored transaction with a valid date is in the report of `year`
   * exactly when it is dated in `year`; January 1 of the year is in, and
   * January 1 of the next year is out.
   */
  lemma YearRowsExactly(stored: seq<Transaction>, year: int, t: Transaction)
    requires ValidDate(t.txDate)
    ensures t in YearRows(stored, year) <==> t in stored && t.txDate.year == year
    ensures InYear(t, year) ==> multiset(YearRows(stored, year))[t] == multiset(stored)[t]
  {
    InYearRange(t.txDate, year);
    assert t in YearRows(stored, year) <==> multiset(YearRows(stored, year))[t] > 0;
    assert t in stored <==> multiset(stored)[t] > 0;
  }

  /**
   * A row dated January 1 of the year is in its report; a row dated
   * January 1 of the next year is not.
   */
  lemma YearBoundaries(t: Transaction, u: Transaction, year: int)
    requires t.txDate == Date(year, 1, 1)
    requires u.txDate == Date(year + 1, 1, 1)
    ensures InYear(t, year) && !InYear(u, year)
  {
  }

  // ---------------------------------------------------------------------
  // Sums

  /** The amount a row adds to the total of `kind`. */
  function KindWeight(kind: string): Transaction -> int
  {
    (t: Transaction) => if t.kind == kind then t.amount else 0
  }

  /** The amount a row adds to the expenses of category `c`. */
  function CategoryWeight(c: string): Transaction -> int
  {
    (t: Transaction) => if t.kind == Expense && t.category == c then t.amount else 0
  }

  /** `sum(t.amount for t in rows if t.type == kind)`. */
  function KindTotal(rows: seq<Transaction>, kind: string): int
  {
    SumOf(rows, KindWeight(kind))
  }

  /** The expenses of category `c` in `rows`. */
  function CategoryTotal(rows: seq<Transaction>, c: string): int
  {
    SumOf(rows, CategoryWeight(c))
  }

  /** The categories of the expense rows. */
  function ExpenseCategories(rows: seq<Transaction>): set<string>
  {
    set t | t in rows && t.kind == Expense :: t.category
  }

  /** Appending a row adds its amount to its own kind's total and to no other. */
  lemma KindTotalAppend(rows: seq<Transaction>, t: Transaction, kind: string)
    ensures KindTotal(rows + [t], kind) == KindTotal(rows, kind) + (if t.kind == kind then t.amount else 0)
  {
    SumOfAppend(rows, [t], KindWeight(kind));
    assert [t][1..] == [];
  }

  /**
   * Appending a row changes a category's expenses only when it is an
   * expense of that category; an income row changes none.
   */
  lemma CategoryTotalAppend(rows: seq<Transaction>, t: Transaction, c: string)
    ensures CategoryTotal(rows + [t], c) ==
            CategoryTotal(rows, c) + (if t.kind == Expense && t.category == c then t.amount else 0)
  {
    SumOfAppend(rows, [t], CategoryWeight(c));
    assert [t][1..] == [];
  }

  /** Appending a row adds its category only when it is an expense. */
  lemma ExpenseCategoriesAppend(rows: seq<Transaction>, t: Transaction)
    ensures ExpenseCategories(rows + [t]) ==
            ExpenseCategories(rows) + (if t.kind == Expense then {t.category} else {})
  {
  }

  /** A row whose type is neither "income" nor "expense" counts nowhere. */
  lemma OtherKindsCountNowhere(rows: seq<Transaction>, t: Transaction)
    requires t.kind != Income && t.kind != Expense
    ensures KindTotal(rows + [t], Income) == KindTotal(rows, Income)
    ensures KindTotal(rows + [t], Expense) == KindTotal(rows, Expense)
    ensures ExpenseCategories(rows + [t]) == ExpenseCategories(rows)
    ensures forall c :: CategoryTotal(rows + [t], c) == CategoryTotal(rows, c)
  {
    KindTotalAppend(rows, t, Income);
    KindTotalAppend(rows, t, Expense);
    ExpenseCategoriesAppend(rows, t);
    forall c ensures CategoryTotal(rows + [t], c) == CategoryTotal(rows, c) {
      CategoryTotalAppend(rows, t, c);
    }
  }

  // ---------------------------------------------------------------------
  // The `by_category_expense` dictionary, as an insertion-ordered list of
  // (key, value) entries

  type Entry = (string, int)

  function Value(e: Entry): int
  {
    e.1
  }

  /** `sum(d.values())`. */
  function ValuesSum(d: seq<Entry>): int
  {
    SumOf(d, Value)
  }

  function Keys(d: seq<Entry>): set<string>
  {
    set e | e in d :: e.0
  }

  ghost predicate DistinctKeys(d: seq<Entry>)
  {
    forall i, j :: 0 <= i < j < |d| ==> d[i].0 != d[j].0
  }

  /** `d.get(k, default)`. */
  function DictGet(d: seq<Entry>, k: string, default: int): (r: int)
    ensures k !in Keys(d) ==> r == default
    ensures k in Keys(d) ==> (k, r) in d
  {
    if d == [] then default
    else if d[0].0 == k then d[0].1
    else
      assert d == [d[0]] + d[1..];
      DictGet(d[1..], k, default)
  }

  /** With distinct keys, an entry is exactly what `get` returns for its key. */
  lemma DictGetEntry(d: seq<Entry>, e: Entry, default: int)
    requires DistinctKeys(d)
    requires e in d
    ensures DictGet(d, e.0, default) == e.1
  {
  }

  /** `d[k] = v`: overwrites the entry of `k` in place, or appends one. */
  function DictSet(d: seq<Entry>, k: string, v: int): seq<Entry>
  {
    if d == [] then [(k, v)]
    else if d[0].0 == k then [(k, v)] + d[1..]
    else [d[0]] + DictSet(d[1..], k, v)
  }

  lemma KeysCons(e: Entry, d: seq<Entry>)
    ensures Keys([e] + d) == {e.0} + Keys(d)
  {
  }

  lemma DistinctKeysTail(d: seq<Entry>)
    requires d != [] && DistinctKeys(d)
    ensures DistinctKeys(d[1..])
    ensures d[0].0 !in Keys(d[1..])
  {
  }

  lemma DistinctKeysCons(e: Entry, d: seq<Entry>)
    requires DistinctKeys(d) && e.0 !in Keys(d)
    ensures DistinctKeys([e] + d)
  {
  }

  /** Setting a key adds it to the keys and keeps them distinct. */
  lemma {:induction false} DictSetKeys(d: seq<Entry>, k: string, v: int)
    ensures Keys(DictSet(d, k, v)) == Keys(d) + {k}
    ensures DistinctKeys(d) ==> DistinctKeys(DictSet(d, k, v))
  {
    if d == [] {
      KeysCons((k, v), []);
    } else {
      assert d == [d[0]] + d[1..];
      KeysCons(d[0], d[1..]);
      if d[0].0 == k {
        KeysCons((k, v), d[1..]);
        if DistinctKeys(d) {
          DistinctKeysTail(d);
          DistinctKeysCons((k, v), d[1..]);
        }
      } else {
        DictSetKeys(d[1..], k, v);
        KeysCons(d[0], DictSet(d[1..], k, v));
        if DistinctKeys(d) {
          DistinctKeysTail(d);
          DistinctKeysCons(d[0], DictSet(d[1..], k, v));
        }
      }
    }
  }

  /** After `d[k] = v`, `get` returns `v` for `k` and what it did before for every other key. */
  lemma {:induction false} DictSetGet(d: seq<Entry>, k: string, v: int, c: string, default: int)
    ensures DictGet(DictSet(d, k, v), c, default) == if c == k then v else DictGet(d, c, default)
  {
    if d != [] && d[0].0 != k {
      DictSetGet(d[1..], k, v, c, default);
    }
  }

  /** `d[k] = v` moves the sum of the values by `v` minus the old value of `k`. */
  lemma {:induction false} DictSetSum(d: seq<Entry>, k: string, v: int)
    ensures ValuesSum(DictSet(d, k, v)) == ValuesSum(d) - DictGet(d, k, 0) + v
  {
    if d == [] {
      assert [(k, v)][1..] == [];
    } else if d[0].0 == k {
      assert ([(k, v)] + d[1..])[1..] == d[1..];
    } else {
      DictSetSum(d[1..], k, v);
      assert ([d[0]] + DictSet(d[1..], k, v))[1..] == DictSet(d[1..], k, v);
    }
  }

  // ---------------------------------------------------------------------
  // `sorted(by_category_expense.items(), key=lambda x: x[0])`

  predicate ByName(a: Entry, b: Entry)
  {
    StrLe(a.0, b.0)
  }

  lemma ByNameIsTotalPreorder()
    ensures IsTotalPreorder(ByName)
  {
    StrLeTotalOrder();
  }

  /** Every key is smaller than the next: one entry per name, ascending. */
  ghost predicate StrictlyAscending(d: seq<Entry>)
  {
    forall i, j :: 0 <= i < j < |d| ==> StrLt(d[i].0, d[j].0)
  }

  lemma {:induction false} InsertKeepsDistinctKeys(x: Entry, s: seq<Entry>, le: (Entry, Entry) -> bool)
    requires DistinctKeys(s)
    requires x.0 !in Keys(s)
    ensures DistinctKeys(Insert(x, s, le))
  {
    var r := Insert(x, s, le);
    if s == [] || le(x, s[0]) {
      forall i, j | 0 <= i < j < |r| ensures r[i].0 != r[j].0 {
        assert r[j] == s[j - 1];
        if i > 0 {
          assert r[i] == s[i - 1];
        }
      }
    } else {
      var tail := Insert(x, s[1..], le);
      assert s == [s[0]] + s[1..];
      assert DistinctKeys(s[1..]) by {
        forall i, j | 0 <= i < j < |s[1..]| ensures s[1..][i].0 != s[1..][j].0 {
          assert s[1..][i] == s[i + 1] && s[1..][j] == s[j + 1];
        }
      }
      assert x.0 !in Keys(s[1..]) by {
        forall e | e in s[1..] ensures e in s { }
      }
      InsertKeepsDistinctKeys(x, s[1..], le);
      assert r == [s[0]] + tail;
      forall i, j | 0 <= i < j < |r| ensures r[i].0 != r[j].0 {
        if i == 0 {
          var e := r[j];
          assert e in tail;
          assert e in multiset(s[1..]) + multiset{x};
          if e != x {
            assert e in s[1..];
            var k :| 0 <= k < |s[1..]| && s[1..][k] == e;
            assert s[k + 1] == e;
          }
        } else {
          assert r[i] == tail[i - 1] && r[j] == tail[j - 1];
        }
      }
    }
  }

  lemma {:induction false} InsertionSortKeepsDistinctKeys(s: seq<Entry>, le: (Entry, Entry) -> bool)
    requires DistinctKeys(s)
    ensures DistinctKeys(InsertionSort(s, le))
  {
    if s != [] {
      assert DistinctKeys(s[1..]) by {
        forall i, j | 0 <= i < j < |s[1..]| ensures s[1..][i].0 != s[1..][j].0 {
          assert s[1..][i] == s[i + 1] && s[1..][j] == s[j + 1];
        }
      }
      InsertionSortKeepsDistinctKeys(s[1..], le);
      var sorted := InsertionSort(s[1..], le);
      assert s[0].0 !in Keys(sorted) by {
        forall e | e in sorted ensures e.0 != s[0].0 {
          assert e in multiset(s[1..]);
          var k :| 0 <= k < |s[1..]| && s[1..][k] == e;
          assert s[k + 1] == e;
        }
      }
      InsertKeepsDistinctKeys(s[0], sorted, le);
    }
  }

  /**
   * The dictionary's entries, ascending by name: the same entries, each
   * name once, every name before the next.
   */
  function SortByName(d: seq<Entry>): (r: seq<Entry>)
    requires DistinctKeys(d)
    ensures multiset(r) == multiset(d)
    ensures Keys(r) == Keys(d)
    ensures DistinctKeys(r)
    ensures StrictlyAscending(r)
  {
    var r := InsertionSort(d, ByName);
    ByNameIsTotalPreorder();
    InsertionSortSorted(d, ByName);
    InsertionSortKeepsDistinctKeys(d, ByName);
    assert Keys(r) == Keys(d) by {
      assert forall e :: e in r <==> e in multiset(d);
    }
    r
  }

  // ---------------------------------------------------------------------
  // The report

  /**
   * `d` is the per-category expense table of `rows`: one entry per
   * expense category, each holding that category's total, the totals
   * adding up to the expense total.
   */
  ghost predicate GroupsExpenses(d: seq<Entry>, rows: seq<Transaction>)
  {
    && DistinctKeys(d)
    && Keys(d) == ExpenseCategories(rows)
    && (forall c :: DictGet(d, c, 0) == CategoryTotal(rows, c))
    && ValuesSum(d) == KindTotal(rows, Expense)
  }

  /** The body of the loop, `d[t.category] = d.get(t.category, 0.0) + t.amount` for expenses. */
  function GroupStep(d: seq<Entry>, t: Transaction): seq<Entry>
  {
    if t.kind == Expense then DictSet(d, t.category, DictGet(d, t.category, 0) + t.amount) else d
  }

  /** One pass of the loop extends the table from `rows` to `rows + [t]`. */
  lemma GroupStepKeepsGrouping(d: seq<Entry>, rows: seq<Transaction>, t: Transaction)
    requires GroupsExpenses(d, rows)
    ensures GroupsExpenses(GroupStep(d, t), rows + [t])
  {
    var d' := GroupStep(d, t);
    ExpenseCategoriesAppend(rows, t);
    KindTotalAppend(rows, t, Expense);
    forall c ensures DictGet(d', c, 0) == CategoryTotal(rows + [t], c) {
      CategoryTotalAppend(rows, t, c);
      if t.kind == Expense {
        DictSetGet(d, t.category, DictGet(d, t.category, 0) + t.amount, c, 0);
      }
    }
    if t.kind == Expense {
      DictSetKeys(d, t.category, DictGet(d, t.category, 0) + t.amount);
      DictSetSum(d, t.category, DictGet(d, t.category, 0) + t.amount);
    }
  }

  /** The loop that fills `by_category_expense`. */
  method ExpensesByCategory(rows: seq<Transaction>) returns (d: seq<Entry>)
    ensures DistinctKeys(d)
    ensures Keys(d) == ExpenseCategories(rows)
    ensures forall c :: DictGet(d, c, 0) == CategoryTotal(rows, c)
    ensures ValuesSum(d) == KindTotal(rows, Expense)
  {
    d := [];
    for i := 0 to |rows|
      invariant GroupsExpenses(d, rows[..i])
    {
      var t := rows[i];
      GroupStepKeepsGrouping(d, rows[..i], t);
      if t.kind == Expense {
        d := DictSet(d, t.category, DictGet(d, t.category, 0) + t.amount);
      }
      assert rows[..i + 1] == rows[..i] + [t];
    }
    assert rows[..|rows|] == rows;
  }

  datatype Report = Report(
    year: int,
    incomeTotal: int,
    expenseTotal: int,
    netTotal: int,
    byCategory: seq<Entry>,
    transactions: seq<Transaction>)

  /** `date(year, 1, 1)` or `date(year + 1, 1, 1)` raised (`ValueError`, or `OverflowError` beyond the C int range). */
  datatype ReportError = YearOutOfRange(year: int)

  /**
   * `ui_report`: for a year whose January 1 and next January 1 both exist,
   * the rows dated in the year (newest first), the income and expense
   * totals over them, their difference, and per expense category its total,
   * ascending by name and adding up to the expense total.
   */
  method UiReport(stored: seq<Transaction>, year: int) returns (r: Result<Report, ReportError>)
    ensures r.Failure? <==> !(MinYear <= year < MaxYear)
    ensures r.Failure? ==> r.error == YearOutOfRange(year)
    ensures r.Success? ==> r.value.year == year
    ensures r.Success? ==> multiset(r.value.transactions) == multiset(YearRows(stored, year))
    ensures r.Success? ==> Sorted(r.value.transactions, NewerOrSame)
    ensures r.Success? ==> r.value.incomeTotal == KindTotal(YearRows(stored, year), Income)
    ensures r.Success? ==> r.value.expenseTotal == KindTotal(YearRows(stored, year), Expense)
    ensures r.Success? ==> r.value.netTotal == r.value.incomeTotal - r.value.expenseTotal
    ensures r.Success? ==> StrictlyAscending(r.value.byCategory)
    ensures r.Success? ==> Keys(r.value.byCategory) == ExpenseCategories(YearRows(stored, year))
    ensures r.Success? ==> forall e :: e in r.value.byCategory ==>
              e.1 == CategoryTotal(YearRows(stored, year), e.0)
    ensures r.Success? ==> ValuesSum(r.value.byCategory) == r.value.expenseTotal
  {
    var start := MakeDate(year, 1, 1);
    var end := MakeDate(year + 1, 1, 1);
    if start.None? || end.None? {
      return Failure(YearOutOfRange(year));
    }
    var rows := YearRows(stored, year);
    var txs := NewestFirst(rows);

    var incomeTotal := KindTotal(txs, Income);
    var expenseTotal := KindTotal(txs, Expense);

    var byCategoryExpense := ExpensesByCategory(txs);
    var byCategoryList := SortByName(byCategoryExpense);

    r := Success(Report(year, incomeTotal, expenseTotal, incomeTotal - expenseTotal,
                        byCategoryList, txs));

    SumOfPermutation(txs, rows, KindWeight(Income));
    SumOfPermutation(txs, rows, KindWeight(Expense));
    SumOfPermutation(byCategoryList, byCategoryExpense, Value);
    assert ExpenseCategories(txs) == ExpenseCategories(rows) by {
      assert forall t :: t in txs <==> t in multiset(rows);
    }
    forall e | e in byCategoryList
      ensures e.1 == CategoryTotal(rows, e.0)
    {
      assert e in multiset(byCategoryExpense);
      DictGetEntry(byCategoryExpense, e, 0);
      SumOfPermutation(txs, rows, CategoryWeight(e.0));
    }
  }

  /**
   * A worked year: one income of 1000.00 and one "Utilities" expense of
   * 150.00 in March 2024, and one expense dated January 1, 2025.
   */
  const March1 := Transaction(Date(2024, 3, 1), Income, "rental", "Rental Income", 100000, None, None)
  const March15 := Transaction(Date(2024, 3, 15), Expense, "rental", "Utilities", 15000, None, None)
  const NextNewYear := Transaction(Date(2025, 1, 1), Expense, "rental", "Utilities", 999, None, None)

  /** The report for 2024 reads the two March rows and not the January 1, 2025 one. */
  lemma WorkedExampleRows()
    ensures YearRows([March1, March15, NextNewYear], 2024) == [March1, March15]
  {
    var inYear := InYearOf(2024);
    assert [March1, March15, NextNewYear][1..] == [March15, NextNewYear];
    assert [March15, NextNewYear][1..] == [NextNewYear];
    assert [NextNewYear][1..] == [];
    assert Filter([NextNewYear], inYear) == [];
    assert Filter([March15, NextNewYear], inYear) == [March15];
  }

  /** Its totals: income 1000.00, expenses 150.00, all of them "Utilities". */
  lemma WorkedExampleTotals()
    ensures KindTotal([March1, March15], Income) == 100000
    ensures KindTotal([March1, March15], Expense) == 15000
    ensures ExpenseCategories([March1, March15]) == {"Utilities"}
    ensures CategoryTotal([March1, March15], "Utilities") == 15000
  {
    assert Income != Expense by {
      assert Income[0] != Expense[0];
    }
    assert [March1, March15][1..] == [March15];
    assert [March15][1..] == [];
    assert SumOf([March15], KindWeight(Income)) == 0;
    assert SumOf([March15], KindWeight(Expense)) == 15000;
    assert SumOf([March15], CategoryWeight("Utilities")) == 15000;
    assert forall t :: t in [March1, March15] ==> t == March1 || t == March15;
  }
}
