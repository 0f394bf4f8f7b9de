/**
 * The `Transaction` record and how a submitted form becomes one.
 * Amounts are integer cents, so Python's `round(x, 2)` is the identity.
 */
module Records {
  import opened Wrappers
  import opened Dates

  /** The two `type` values the report adds up; any other is stored but counted nowhere. */
  const Income := "income"
  const Expense := "expense"

  datatype Transaction = Transaction(
    txDate: Date,
    kind: string,       // the `type` column: "income" | "expense" by convention, never checked
    source: string,     // "work" | "rental" by convention, never checked
    category: string,   // free text, not tied to the category table
    amount: int,        // cents; the sign is never checked
    vendor: Option<string>,
    notes: Option<string>)

  /**
   * Python's `s or None` for a form field: the empty string is stored as
   * absent, any other string as itself.
   */
  function OrNone(s: string): (r: Option<string>)
    ensures r.None? <==> s == []
    ensures r.GetOr("") == s
  {
    if s == [] then None else Some(s)
  }

  /** The row `ui_create_transaction` builds from its (already parsed) form fields. */
  function NewTransaction(txDate: Date, source: string, kind: string, category: string,
                          amount: int, vendor: string, notes: string): (t: Transaction)
    ensures t.txDate == txDate && t.source == source && t.kind == kind
    ensures t.category == category && t.amount == amount
    ensures t.vendor.None? <==> vendor == []
    ensures t.notes.None? <==> notes == []
    ensures t.vendor.GetOr("") == vendor && t.notes.GetOr("") == notes
  {
    Transaction(txDate, kind, source, category, amount, OrNone(vendor), OrNone(notes))
  }
}
