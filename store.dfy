/**
 * The record store: the category table and the transaction table, and
 * the operations that add rows to them (startup seeding, the "add
 * category" form and the "new transaction" form).
 */
module Store {
  import opened PyStr
  import opened Dates
  import opened Records
  import Categories

  class RecordStore {
    /** Category names, in the order the rows were inserted. */
    var categories: seq<string>
    /** Transaction rows, in the order they were inserted. */
    var transactions: seq<Transaction>

    ghost predicate Valid()
      reads this
    {
      && Categories.CategoriesValid(categories)
      && forall t :: t in transactions ==> ValidDate(t.txDate)
    }

    /** Freshly created, empty tables. */
    constructor ()
      ensures Valid()
      ensures categories == [] && transactions == []
    {
      categories := [];
      transactions := [];
    }

    /** `on_startup`: when no category exists, add the defaults one by one. */
    method OnStartup()
      requires Valid()
      modifies this
      ensures Valid()
      ensures categories == Categories.Seeded(old(categories))
      ensures transactions == old(transactions)
    {
      if categories == [] {
        var defaults := Categories.DefaultCategories;
        for i := 0 to |defaults|
          invariant categories == defaults[..i]
          invariant transactions == old(transactions)
        {
          categories := categories + [defaults[i]];
        }
        assert categories == defaults;
      }
      Categories.SeededKeepsValid(old(categories));
    }

    /**
     * `ui_add_category`: strip the name; an empty result or a name that is
     * already present leaves the table as it is, otherwise the stripped
     * name is added.
     */
    method AddCategory(name: string)
      requires Valid()
      modifies this
      ensures Valid()
      ensures categories == Categories.AddCategory(old(categories), name)
      ensures transactions == old(transactions)
    {
      var clean := Strip(name);
      if clean != [] {
        var present := clean in categories;
        if !present {
          categories := categories + [clean];
        }
      }
      Categories.AddCategoryKeepsValid(old(categories), name);
    }

    /**
     * `ui_create_transaction`: append the row built from the form fields,
     * with empty vendor and notes stored as absent. `txDate` is the result
     * of `date.fromisoformat`, so it is a valid date.
     */
    method CreateTransaction(txDate: Date, source: string, kind: string, category: string,
                             amount: int, vendor: string, notes: string)
      requires Valid()
      requires ValidDate(txDate)
      modifies this
      ensures Valid()
      ensures transactions == old(transactions) + [NewTransaction(txDate, source, kind, category, amount, vendor, notes)]
      ensures categories == old(categories)
    {
      var tx := NewTransaction(txDate, source, kind, category, amount, vendor, notes);
      transactions := transactions + [tx];
    }
  }
}
