/**
 * The home page list: every transaction ordered newest first
 * (`ORDER BY tx_date DESC`), cut to the first fifteen.
 */
module Home {
  import opened Seqs
  import opened Dates
  import opened Records

  const HomeLimit := 15

  /** `a` comes no later than `b` in newest-first order. */
  predicate NewerOrSame(a: Transaction, b: Transaction)
  {
    AtOrBefore(b.txDate, a.txDate)
  }

  lemma NewerOrSameIsTotalPreorder()
    ensures IsTotalPreorder(NewerOrSame)
  {
  }

  /**
   * The rows ordered by date, newest first. Rows with the same date come in
   * an order the database does not promise; only the order of dates and the
   * set of rows are stated.
   */
  function NewestFirst(rows: seq<Transaction>): (r: seq<Transaction>)
    ensures multiset(r) == multiset(rows)
    ensures Sorted(r, NewerOrSame)
  {
    NewerOrSameIsTotalPreorder();
    InsertionSortSorted(rows, NewerOrSame);
    InsertionSort(rows, NewerOrSame)
  }

  /** `...order_by(Transaction.tx_date.desc())).all()[:15]`. */
  function HomeList(stored: seq<Transaction>): seq<Transaction>
  {
    var sorted := NewestFirst(stored);
    if |sorted| <= HomeLimit then sorted else sorted[..HomeLimit]
  }

  /**
   * The home list holds min(15, n) of the stored transactions, newest
   * first, and no transaction left out is newer than one shown.
   */
  lemma HomeListIsNewest(stored: seq<Transaction>)
    ensures var r := HomeList(stored);
      && |r| == (if |stored| <= HomeLimit then |stored| else HomeLimit)
      && Sorted(r, NewerOrSame)
      && multiset(r) <= multiset(stored)
      && forall x, y :: x in r && y in multiset(stored) - multiset(r) ==> AtOrBefore(y.txDate, x.txDate)
  {
    var sorted := NewestFirst(stored);
    var r := HomeList(stored);
    var rest := sorted[|r|..];
    assert sorted == r + rest;
    assert multiset(sorted) == multiset(r) + multiset(rest);
    assert |sorted| == |multiset(sorted)| == |stored|;
    forall x, y | x in r && y in multiset(stored) - multiset(r)
      ensures AtOrBefore(y.txDate, x.txDate)
    {
      assert y in multiset(rest);
      var i :| 0 <= i < |r| && r[i] == x;
      var j :| 0 <= j < |rest| && rest[j] == y;
      assert sorted[i] == x && sorted[|r| + j] == y;
    }
  }
}
