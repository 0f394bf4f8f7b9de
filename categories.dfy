/**
 * The category table as a sequence of names in insertion order, with the
 * two ways it grows: the "add category" form and the startup seeding.
 */
module Categories {
  import opened PyStr

  const DefaultCategories: seq<string> := [
    "Rental Income",
    "Repairs & Maintenance",
    "Utilities",
    "Condo Fees",
    "Insurance",
    "Property Tax",
    "Office Supplies",
    "Fuel",
    "Meals",
    "Parking",
    "Phone/Internet",
    "Tools"
  ]

  ghost predicate NoDuplicates(names: seq<string>)
  {
    forall i, j :: 0 <= i < j < |names| ==> names[i] != names[j]
  }

  /**
   * What the table always satisfies: names are unique (the `unique=True`
   * column), non-empty and already stripped.
   */
  ghost predicate CategoriesValid(names: seq<string>)
  {
    && NoDuplicates(names)
    && forall i :: 0 <= i < |names| ==> names[i] != [] && Strip(names[i]) == names[i]
  }

  /**
   * `ui_add_category`: stores `name.strip()` unless it is empty or a
   * category of that exact name already exists.
   */
  function AddCategory(names: seq<string>, name: string): seq<string>
  {
    var clean := Strip(name);
    if clean == [] || clean in names then names else names + [clean]
  }

  /** `on_startup`: seeds the defaults only when the table is empty. */
  function Seeded(names: seq<string>): seq<string>
  {
    if names == [] then DefaultCategories else names
  }

  /**
   * Adding a name appends its stripped form when that is new and
   * non-empty, and otherwise changes nothing.
   */
  lemma AddCategoryEffect(names: seq<string>, name: string)
    ensures Strip(name) == [] ==> AddCategory(names, name) == names
    ensures Strip(name) in names ==> AddCategory(names, name) == names
    ensures Strip(name) != [] && Strip(name) !in names ==>
              AddCategory(names, name) == names + [Strip(name)]
    ensures forall n :: n in AddCategory(names, name) <==>
              n in names || (n == Strip(name) && n != [])
  {
  }

  /** Adding a category keeps the names unique, non-empty and stripped. */
  lemma AddCategoryKeepsValid(names: seq<string>, name: string)
    requires CategoriesValid(names)
    ensures CategoriesValid(AddCategory(names, name))
  {
    var clean := Strip(name);
    if clean != [] && clean !in names {
      var r := names + [clean];
      forall i, j | 0 <= i < j < |r|
        ensures r[i] != r[j]
      {
        if j == |names| {
          assert r[i] == names[i];
        }
      }
      forall i | 0 <= i < |r|
        ensures r[i] != [] && Strip(r[i]) == r[i]
      {
        if i == |names| {
          StripIdempotent(name);
        }
      }
    }
  }

  /** Adding the same name twice has the effect of adding it once. */
  lemma AddCategoryIdempotent(names: seq<string>, name: string)
    ensures AddCategory(AddCategory(names, name), name) == AddCategory(names, name)
  {
  }

  /** The twelve defaults are distinct, non-empty and stripped. */
  lemma DefaultsValid()
    ensures |DefaultCategories| == 12
    ensures CategoriesValid(DefaultCategories)
  {
    DefaultsDistinct();
    forall i | 0 <= i < |DefaultCategories|
      ensures DefaultCategories[i] != [] && Strip(DefaultCategories[i]) == DefaultCategories[i]
    {
      var n := DefaultCategories[i];
      assert n != [] && !IsSpace(n[0]) && !IsSpace(n[|n| - 1]);
      StripTrimmed(n);
    }
  }

  lemma DefaultsDistinct()
    ensures NoDuplicates(DefaultCategories)
  {
  }

  /**
   * Seeding fills an empty table with the twelve defaults and leaves any
   * other table as it was.
   */
  lemma SeededEffect(names: seq<string>)
    ensures forall n :: n in Seeded(names) <==> n in names || (names == [] && n in DefaultCategories)
    ensures |Seeded(names)| == if names == [] then 12 else |names|
  {
  }

  /** Seeding keeps the table valid. */
  lemma SeededKeepsValid(names: seq<string>)
    requires CategoriesValid(names)
    ensures CategoriesValid(Seeded(names))
  {
    DefaultsValid();
  }

  /** Running startup twice seeds once: no duplicates appear. */
  lemma SeededIdempotent(names: seq<string>)
    ensures Seeded(Seeded(names)) == Seeded(names)
  {
  }
}
