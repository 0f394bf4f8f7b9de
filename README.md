# Taxable Tracker core, in Dafny

A model of the logic inside `app.py` of a single-user income/expense
tracker (FastAPI + SQLModel). The web, template and database plumbing is
replaced by values: the two tables are sequences held by a `RecordStore`
object, a query is a function over a snapshot of the transaction table, and
money is integer cents.

What is modelled:

- **Database URL** (`database.dfy`, module `Database`): `DATABASE_URL` or the
  SQLite default, with a leading `postgres://` rewritten once to
  `postgresql://` through Python's `startswith` and `replace(..., 1)`
  (`pystr.dfy`, module `PyStr`).
- **Categories** (`categories.dfy`, `store.dfy`): the twelve default
  categories, startup seeding only into an empty table, and "add category"
  with Python's `str.strip()` (the full `str.isspace` character set), an
  empty name ignored and a duplicate ignored. The table invariant (unique,
  non-empty, stripped names) is kept by every operation.
- **New transaction** (`records.dfy`, `store.dfy`): the row built from the
  form, with `vendor or None` / `notes or None`, appended to the table.
- **Home list** (`home.dfy`): newest first, at most fifteen.
- **Year report** (`reports.dfy`): the half-open date filter, the income
  and expense sums, the net, the per-category dictionary filled by a loop
  (a Python `dict` is an insertion-ordered list of entries with `get` and
  item assignment) and its listing sorted by name.
- Helpers: `seqs.dfy` (sum, filter, insertion sort with their permutation
  and ordering facts), `dates.dfy` (`datetime.date` validity and order),
  `wrappers.dfy` (`Option`, `Result`).

Notes on what `app.py` does:

- `app.py` does not validate `type` or `source`: any string is stored. A
  `type` other than `"income"` or `"expense"` is counted in no total
  (`Reports.OtherKindsCountNowhere`).
- `net_total` is computed from the unrounded sums (app.py:230), not from the
  rounded totals. With integer cents the two agree.
- `ui_report(year)` raises for a year outside 1..9998 (`ValueError`, or
  `OverflowError` beyond the C int range), because `date(year, 1, 1)` or
  `date(year + 1, 1, 1)` does not exist; for 9999 it is the second. The
  model returns `Failure(YearOutOfRange(year))` there.

## Model

| member | source | states |
|---|---|---|
| `Database.RewriteUrl` | app.py:49-50 | a URL starting with `postgres://` becomes `postgresql://` plus the unchanged remainder (so only the scheme changes); any other URL is returned unchanged |
| `Database.DbUrl` | app.py:48-50 | without `DATABASE_URL` the URL is `sqlite:///tracker.db`; with it, the rewritten value |
| `Database.RewriteRemovesLegacyScheme` | app.py:49-50 | the result never starts with `postgres://` |
| `Database.RewriteIdempotent` | app.py:49-50 | rewriting a rewritten URL changes nothing |
| `PyStr.ReplaceFirstAtStart` | app.py:50 | `replace(old, new, 1)` on a string starting with `old` swaps exactly that prefix (the first occurrence is at index 0) |
| `PyStr.Find` | app.py:50 | the index found is an occurrence and no earlier index is one; no index is one when nothing is found |
| `PyStr.Strip` | app.py:132 | the result is the slice of the input left after removing whitespace at both ends: all removed characters are whitespace, and the result starts and ends with non-whitespace |
| `PyStr.StripIdempotent` | app.py:132 | stripping twice is stripping once |
| `PyStr.StripEmptyIffBlank` | app.py:132-134 | the stripped name is empty exactly when the name is all whitespace |
| `PyStr.StrLeTotalOrder` | app.py:221 | Python's string order (by code point) is total, antisymmetric and transitive, so sorting by name is well defined |
| `Dates.BeforeIsStrictTotalOrder` | app.py:209-210 | date order is irreflexive, transitive and total on distinct dates, which the half-open filter and the newest-first ordering rely on |
| `Dates.NewYearExists` | app.py:203-204 | January 1 of a year exists exactly for years 1..9999 |
| `Dates.InYearRange` | app.py:203-209 | a valid date is in [January 1 of y, January 1 of y+1) exactly when its year is y |
| `Records.OrNone` | app.py:187-188 | an empty form field is stored as absent, a non-empty one unchanged (reading it back with `""` as default recovers it) |
| `Records.NewTransaction` | app.py:181-189 | every field is stored as given, except vendor and notes, absent exactly when empty |
| `Categories.AddCategoryEffect` | app.py:130-142 | adding appends `name.strip()` when it is non-empty and not yet present, and otherwise changes nothing; the names afterwards are the old ones plus the stripped name if non-empty |
| `Categories.AddCategoryKeepsValid` | app.py:130-142 | names stay unique, non-empty and stripped |
| `Categories.AddCategoryIdempotent` | app.py:132-140 | adding a name twice has the effect of adding it once |
| `Categories.DefaultsDistinct` | app.py:77-90 | the default names are pairwise distinct |
| `Categories.DefaultsValid` | app.py:77-90 | there are twelve defaults, unique, non-empty and stripped |
| `Categories.SeededEffect` | app.py:96-102 | after seeding, the names are the old ones, plus the defaults only when the table was empty; the table then has twelve names if it was empty and otherwise its old size |
| `Categories.SeededKeepsValid` | app.py:96-102 | seeding keeps names unique, non-empty and stripped |
| `Categories.SeededIdempotent` | app.py:96-102 | running startup twice seeds once, so no duplicates appear |
| `Store.RecordStore.constructor` | app.py:94 | freshly created tables are empty and valid |
| `Store.RecordStore.OnStartup` | app.py:92-102 | the category table becomes the seeded one (defaults added one by one into an empty table), the transactions are untouched, the invariant holds |
| `Store.RecordStore.AddCategory` | app.py:130-142 | the category table becomes the result of adding the stripped name; transactions untouched; the invariant holds |
| `Store.RecordStore.CreateTransaction` | app.py:171-195 | exactly the new row is appended to the transactions; categories untouched |
| `Home.NewestFirst` | app.py:119 | the rows ordered by date, newest first, and a permutation of the input |
| `Home.HomeListIsNewest` | app.py:119 | the home list holds min(15, n) stored rows, newest first, and no row left out is newer than a row shown |
| `Reports.YearRows` | app.py:203-211 | the rows read are exactly the stored rows dated in [January 1 of the year, January 1 of the next), with their multiplicities |
| `Reports.YearRowsExactly` | app.py:203-211 | a stored row with a valid date is read exactly when its year is the report year |
| `Reports.YearBoundaries` | app.py:203-209 | a row dated January 1 of the year passes the report's filter and a row dated January 1 of the next year does not |
| `Reports.KindTotalAppend` | app.py:213-214 | a row adds its amount to the total of its own type and to no other |
| `Reports.CategoryTotalAppend` | app.py:216-219 | a row adds to a category's expenses only when it is an expense of that category |
| `Reports.ExpenseCategoriesAppend` | app.py:216-219 | a row adds its category to the table's keys only when it is an expense |
| `Reports.OtherKindsCountNowhere` | app.py:213-219 | a row whose type is neither income nor expense changes no total and no category entry |
| `Reports.DictGetEntry` | app.py:219 | with distinct keys, `get` on an entry's key returns that entry's value |
| `Reports.DictSetKeys` | app.py:219 | `d[k] = v` adds `k` to the keys and keeps keys distinct |
| `Reports.DictSetGet` | app.py:219 | after `d[k] = v`, `get` returns `v` for `k` and the old value for every other key |
| `Reports.DictSetSum` | app.py:219 | `d[k] = v` changes the sum of the values by `v` minus the old value of `k` |
| `Reports.GroupStepKeepsGrouping` | app.py:217-219 | one loop pass turns the table of `rows` into the table of `rows + [t]` |
| `Reports.ExpensesByCategory` | app.py:216-219 | the filled dictionary has one entry per expense category, each holding that category's total, and its values add up to the expense total |
| `Reports.SortByName` | app.py:221 | the sorted list has the dictionary's entries, one per name, strictly ascending by name |
| `Reports.UiReport` | app.py:201-234 | fails exactly for years outside 1..9998; otherwise the rows dated in the year newest first, income and expense totals over them, net = income - expense, and per expense category its total, strictly ascending by name and adding up to the expense total |
| `Reports.WorkedExampleRows` | app.py:203-211 | the 2024 report reads two March rows and not the row dated January 1, 2025 |
| `Reports.WorkedExampleTotals` | app.py:213-221 | for those rows income is 1000.00, expenses 150.00, all in "Utilities" |

## Left out

- HTTP Basic authentication (`require_login`): credential comparison in library code, no logic of its own.
- Routing, form parsing, redirects and Jinja templates, including the category listing of the "new transaction" page and the `/` status endpoint: presentation only.
- SQLModel engine, sessions, commits and `create_all`: the tables are in-memory sequences; rows carry no store-assigned `id`.
- `date.fromisoformat`: `CreateTransaction` takes an already parsed date and requires it to be valid; the parse error of a malformed string is not modelled.
- The default report year `date.today().year`: the clock is not modelled; the year is a parameter.
- Floating point and `round(x, 2)`: amounts are integer cents, so rounding is the identity and the float sums' rounding error does not exist in the model.
- The database's `UNIQUE` constraint violation on `Category.name`: with requests served one at a time no path inserts a duplicate (proved), so the error is not raised.
- Concurrency: FastAPI serves sync endpoints from a thread pool, and several workers may run startup. Two concurrent `ui_add_category` calls with the same name, or two startups on an empty table, can both pass the existence check, and the later commit then fails with an integrity error. The model runs one operation at a time and does not capture these interleavings.
- Home.NewestFirst: states only that dates are non-increasing and the rows are a permutation; the order among rows with the same date is whatever the database returns and is not promised.
- Reports.UiReport: the order of same-date rows in `transactions` is likewise not stated.
