# Course registration fees: Dafny model

This project models the logic of the course registration screen in
`App.tsx`. The screen shows a fixed catalog of seven courses. Ticking a
course's checkbox toggles its id in the list `selectedCourses`. The
"Calculate Fees" button then stores a charge in `totalFees`:
- the catalog prices of the ticked ids, summed;
- less a discount chosen by the number of list entries (5% for two, 10% for
  three, 15% for more than three);
- plus 15% VAT on what is left.

The project has four modules:

- `Catalog` (`catalog.dfy`) holds:
  - the `Course` record and the fixed `COURSES` table;
  - `Find`, the model of `courses.find(c => c.id === courseId)`.
- `Selection` (`selection.dfy`) models the selection list:
  - `Without` is `filter(id => id !== courseId)`;
  - `Toggled` is the add-or-remove step of the checkbox handler.
- `Fees` (`fees.dfy`) holds the fee arithmetic as pure functions:
  - `PriceIn` is one id's contribution and `BaseSum` the left fold of
    `reduce`;
  - `Discount` is the ladder;
  - `Discounted` and `Charge` are the three steps of lines 35-37;
  - `Total(cs, sel) = Charge(BaseSum(cs, sel), |sel|)`.

  The catalog is a parameter of these functions, and the screen always
  passes `COURSES`. Most facts are proved for any catalog, with the
  hypotheses they need (unique ids, prices that are not negative). The
  fixed table's own facts are proved once and then applied.
- `App` (`app.dfy`) holds the class `AppState`:
  - its two state fields are `selectedCourses` and `totalFees`;
  - `HandleCourseSelection` replaces the list;
  - `CalculateFees` runs the imperative discount ladder and stores the
    result;
  - two scenario methods drive a fresh screen through a sequence of presses.

Prices and fees are Dafny `real`s, so the arithmetic is exact.

Two behaviours of the selection handler are easy to miss:

- **The selection is a list, not a set.** `selectedCourses` is a
  `number[]`, filtered on removal and appended to on insertion. So the
  model keeps a `seq<int>`, and order and multiplicity are part of the
  state.
  - The fee does not depend on the order: `Fees.TotalOrderIndependent`
    gives the same base sum and total for any two lists holding the same
    ids the same number of times, in any catalog.
  - Repeats would change the fee (`[1, 1]` costs more than `[1]`), but no
    reachable state repeats an id. The screen starts empty, and
    `App.AppState.HandleCourseSelection` keeps `AppState.Valid`, the
    duplicate-free invariant.
- **Toggling an id twice does not always restore the list.**
  - For an id that was not selected, it does, exactly
    (`Selection.ToggleTwiceAbsent`).
  - For a selected id, the same members come back, but the id moves to the
    end of the list (`Selection.ToggleTwicePresent`). The list is equal to
    the original only when the id was already last
    (`Selection.ToggleTwicePresentRestores`). The smallest case is
    `[1, 2]`, which becomes `[2, 1]` (`Selection.ToggleTwiceMovesToEnd`,
    `App.RetickFirstAid`).

## Model

| member | source | states |
|---|---|---|
| Catalog.Find | App.tsx:26 | the lookup finds nothing exactly when no course has the id; what it finds is a course of the catalog with that id |
| Catalog.FindFirst | App.tsx:26 | the lookup returns the first course with the id, whatever follows it |
| Catalog.CatalogTable | App.tsx:13-21 | the catalog has seven courses, course k having id k + 1, the first four priced 1500 and the last three 750 |
| Catalog.CatalogIdsDistinct | App.tsx:13-21 | no two catalog courses share an id |
| Catalog.FindInCatalog | App.tsx:13-26 | ids 1 to 7 find the course at position id - 1; every other id finds nothing |
| Selection.WithoutSpec | App.tsx:45 | filtering keeps exactly the ids other than the removed one, each as many times as before, and drops every copy of the removed id |
| Selection.WithoutConcat | App.tsx:45 | filtering a concatenation filters each part |
| Selection.WithoutAbsent | App.tsx:45 | filtering out an id that is not in the list returns the list unchanged |
| Selection.WithoutNoDups | App.tsx:45 | filtering keeps a duplicate-free list duplicate-free |
| Selection.NoDupsCount | App.tsx:9 | in a duplicate-free list every id occurs at most once |
| Selection.ToggleMembership | App.tsx:43-48 | after a toggle the id is selected exactly when it was not before; every other id keeps its membership |
| Selection.ToggleKeepsNoDups | App.tsx:44-47 | a toggle keeps the list free of duplicates |
| Selection.ToggleLength | App.tsx:44-47 | removal drops every copy of the id and insertion adds one; on a duplicate-free list the length moves by exactly one |
| Selection.ToggleTwiceAbsent | App.tsx:44-47 | toggling an unselected id twice gives back exactly the original list |
| Selection.ToggleTwicePresent | App.tsx:44-47 | toggling a selected id twice gives the other ids in their old order followed by that id once, so the same members |
| Selection.ToggleTwicePresentRestores | App.tsx:44-47 | on a duplicate-free list, toggling a selected id twice restores the list exactly when that id was the last entry |
| Selection.ToggleTwiceLast | App.tsx:44-47 | toggling twice the id that ends a list holding it only there restores the list |
| Selection.ToggleTwiceMovesToEnd | App.tsx:44-47 | toggling 1 twice turns [1, 2] into [2, 1] |
| Selection.ToggleStaysWithin | App.tsx:94-98 | when only ids from a given set are toggled, every selected id stays in that set |
| Fees.PriceInSpec | App.tsx:26-27 | an id no course has adds 0; in a catalog with unique ids, an id a course has adds that course's price |
| Fees.PriceTable | App.tsx:13-27 | with the fixed catalog an id adds 1500 for ids 1 to 4, 750 for ids 5 to 7 and 0 otherwise |
| Fees.CatalogListsPrices | App.tsx:13-27 | the fixed catalog charges that price list for every id |
| Fees.BaseSum | App.tsx:25-28 | with prices that are not negative the base sum is not negative |
| Fees.BaseSumAtMost | App.tsx:25-28 | when no price exceeds cap, the base sum is at most cap times the number of entries |
| Fees.BaseSumAtMostScaled | App.tsx:25-28 | the induction behind BaseSumAtMost: the base sum is at most cap added once per entry |
| Fees.PriceInWithin | App.tsx:26-27 | one id adds between 0 and the highest price |
| Fees.BaseSumAppend | App.tsx:25-28 | appending an id raises the base sum by that id's price: the step the `reduce` takes |
| Fees.BaseSumRemoveAt | App.tsx:25-28 | taking any one entry out of a selection lowers the base sum by that entry's price |
| Fees.RemoveMatching | App.tsx:25-28 | taking the last entry off one list and a matching entry out of another keeps two equal multisets of ids equal |
| Fees.BaseSumReordered | App.tsx:25-28 | two selections holding the same ids the same number of times have the same base sum, in any catalog |
| Fees.CatalogSumAdd | App.tsx:25-28 | one more selection of an id raises the catalog-side sum by that id's price |
| Fees.CatalogSumEmpty | App.tsx:25-28 | the catalog-side sum of no selection is 0 |
| Fees.BaseSumByCatalog | App.tsx:25-28 | the base sum equals the catalog-side sum, each price times the number of times its id is selected, unknown ids counting for nothing |
| Fees.BaseSumUnknownOnly | App.tsx:25-39 | a selection of ids the catalog does not know has base sum 0 and total 0, however many entries it has |
| Fees.DiscountClosedForm | App.tsx:30-33 | the discount is 0 for no entries and otherwise 5% per entry after the first, up to the fourth; it never goes below 0 or above 15% |
| Fees.DiscountMonotone | App.tsx:30-33 | more entries never earn a smaller discount |
| Fees.Total | App.tsx:35-39 | an empty selection costs 0 |
| Fees.TotalClosedForm | App.tsx:35-37 | the discounted total is base times (1 - discount), and the total is base times (1 - discount) times 1.15 |
| Fees.TotalBounds | App.tsx:35-37 | with prices that are not negative, 0 <= base * 0.85 * 1.15 <= total <= base * 1.15 |
| Fees.ChargeBounds | App.tsx:35-37 | the discount and VAT on a base sum that is not negative keep the charge between the full-discount figure and base plus VAT |
| Fees.TotalOrderIndependent | App.tsx:25-37 | in any catalog, two selections holding the same ids the same number of times have the same base sum and the same total |
| Fees.CatalogSumAtMostOnce | App.tsx:25-28 | with prices that are not negative and no id counted twice, the catalog-side sum is at most the price of the whole catalog |
| Fees.BaseSumDistinctAtMostCatalog | App.tsx:25-28 | in a catalog with unique ids and prices that are not negative, a duplicate-free selection costs at most the whole catalog before discount and VAT |
| Fees.CatalogFigures | App.tsx:13-21 | the fixed catalog has unique ids, prices between 0 and 1500, and its prices total 8250 |
| Fees.TotalMaxDistinct | App.tsx:13-37 | a duplicate-free selection from the fixed catalog has base sum at most 8250 and total at most 8064.375 |
| Fees.CatalogTotalNonNegative | App.tsx:13-37 | no selection from the fixed catalog is charged a negative amount |
| Fees.TotalMaxDistinctIn | App.tsx:25-37 | the same bounds for any catalog with those figures |
| Fees.ChargeAtMost | App.tsx:30-37 | a base sum of at most 1500 per entry and at most 8250 in all is charged at most 8064.375 |
| Fees.BaseSumListed | App.tsx:13-28 | in a catalog that charges the listed prices, the base sum is the sum of the entries' listed prices |
| Fees.ListedExampleSums | App.tsx:13-21 | the listed prices of [1, 2] and [2, 1] add up to 3000, of [5, 6, 7] to 2250, of ids 1 to 7 to 8250, and of [1, 99] to 1500 |
| Fees.ExampleFirstAidAndSewing | App.tsx:13-37 | [1, 2] (First Aid and Sewing): base 3000, discounted 2850, total 3277.5 |
| Fees.ExampleSewingThenFirstAid | App.tsx:13-37 | [2, 1] (Sewing before First Aid): base 3000, total 3277.5, as in the other order |
| Fees.ExampleThreeShortCourses | App.tsx:13-37 | [5, 6, 7] (Child Minding, Cooking, Garden Maintenance): base 2250, discounted 2025, total 2328.75 |
| Fees.ExampleWholeCatalog | App.tsx:13-37 | [1, 2, 3, 4, 5, 6, 7] (all seven courses): base 8250, discounted 7012.5, total 8064.375 |
| Fees.ExampleUnknownId | App.tsx:13-37 | [1, 99] (First Aid and the unknown id 99): base 1500, but the two entries earn 5%, so 1425 and 1638.75 |
| App.AppState.constructor | App.tsx:9-10 | the screen starts with nothing selected, a charge of 0 and a duplicate-free list |
| App.AppState.HandleCourseSelection | App.tsx:43-48 | the new list is the toggled old list and the charge is unchanged; the id's membership flips and every other id's stays; a duplicate-free list stays so and its length moves by one |
| App.AppState.CalculateFees | App.tsx:24-40 | the stored charge is Total of the fixed catalog and the current selection; it is never negative and is 0 for an empty selection; the selection is left as it was |
| App.RetickOrder | App.tsx:43-48 | ticking 1 and 2, then unticking and re-ticking 1, leaves [2, 1] |
| App.TickFirstAidAndSewing | App.tsx:24-48 | a fresh screen with First Aid and Sewing ticked calculates 3277.5 |
| App.RetickFirstAid | App.tsx:24-48 | after re-ticking First Aid the list is [2, 1] and the charge is still 3277.5 |

## Left out

- Name, phone and email (App.tsx:6-8, 68-90): these inputs are stored but
  no logic reads them.
- Rendering: the scroll view, header, logo, the `CustomCheckbox`
  component, the checkbox list and the style sheet (App.tsx:52-174). They
  are presentation only. The checked state of a box
  (`selectedCourses.includes(course.id)`, App.tsx:97) is plain membership
  in the list.
- Display formatting, `toFixed(2)` (App.tsx:108): it is display
  formatting only.
- JavaScript number semantics: prices, rates and fees are exact reals, so
  binary floating-point rounding of 0.05, 0.10 and 0.15 is not modelled.
  Ids are Dafny `int`s, so ids that are not integers (NaN, fractions) are
  not modelled.
- React `useState`: the setters are plain field assignments. Re-rendering
  and batched or stale state updates are not modelled.
