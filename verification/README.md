# Inventory admin panel: invoice calculator, unit conversions, item master and sidebar

A Dafny model of the parts of the inventory and counter-sales admin panel that hold logic:

- **Counter-sale invoice** (`counter_sales.dfy`, module `CounterSales`).
  - The per-line calculator: line total, a percentage or flat discount, a taxable amount clamped at zero, and CGST, SGST, IGST and Cess on top of it.
  - The recomputation of the nine invoice figures. It is a loop with seven running sums, proved against a recursive sum.
  - The schema rules for a line and for the form, and the default form with its blank row.
  - The catalog search behind the item picker, and the two handlers that rewrite one line.
- **Unit-conversion tab** (`unit_conversions.dfy`, module `UnitConversions`).
  - A class holding the add form's fields.
  - Validation in a fixed order, with one message per failed check.
  - Appending on success and then resetting the form.
  - Delete by id, and the name lookup with the six sample units as fallback.
  - The list invariant: rows are well-formed and no ordered (from, to) pair appears twice.
- **Item master page** (`item_master.dfy`, module `ItemMaster`).
  - A class holding the items, the dialog flag, the search term and the item being edited.
  - Adding under id = largest id + 1, saving in edit or add mode, and deleting by id.
  - The invariant that ids stay unique.
- **Sidebar** (`sidebar.dfy`, module `Sidebar`): the expand/collapse toggle on the list of open menu keys, the prefix test that highlights the active entry, and what a click does.

Shared modules:

- `catalog.dfy` (`Catalog`): the catalog record, the three sample items, and the case-insensitive name/code search. Both `loadItems` and the item table's filter use this search.
- `seqs.dfy` (`Seqs`): an order-preserving `Filter` and a `Pairwise` predicate.
- `text.dfy` (`Text`): ASCII `toLowerCase`, `includes` and `startsWith`.
- `optional.dfy` (`Optional`): `Option`, standing for `null`/`undefined`.

Amounts are `real`, so the arithmetic identities hold exactly.

Notes on the code:

- Taxes are always applied on top of the clamped, discounted amount. No formula extracts the tax from a price that already includes it.
- The item schema does not cap a percentage discount at 100. A percentage above 100 is therefore accepted, and its effect is clamped through the taxable amount, which never drops below 0.

Observation, recorded as a lemma rather than as a property: the per-row "Total" cell of the invoice table adds only CGST and SGST to the taxable amount. The grand total also includes IGST and Cess. `RowTotalCellOmitsIgstAndCess` states the difference for a single line.

## Model

| member | source | states |
|---|---|---|
| `Text.ToLower` | src/pages/private/item-master/index.jsx:58-59 | lower-casing keeps the length, turns each capital A-Z into its own lower-case letter (code point + 32) and leaves every other character as it was |
| `Text.ToLowerIdempotent` | src/pages/private/item-master/index.jsx:58-59 | lower-casing an already lower-cased string changes nothing |
| `Catalog.DummyItemsValid` | src/pages/private/counter-sales/components/CreateCounterSales/index.jsx:25-56 | the three sample records satisfy the item form's rules (code and name given, rates in 0..100, price not negative) |
| `Catalog.SearchItems` | src/pages/private/item-master/index.jsx:56-60 | an item is kept exactly when it is in the list and its lower-cased name or code contains the lower-cased term |
| `Catalog.EmptySearchKeepsAll` | src/pages/private/item-master/index.jsx:56-60 | an empty search term keeps every item, in order |
| `Catalog.SearchIgnoresTermCase` | src/pages/private/item-master/index.jsx:56-60 | the search ignores the term's case: a lower-cased term matches exactly the items the original term matches, and keeps the same items in the same order |
| `Catalog.SearchAppend` | src/pages/private/item-master/index.jsx:56-60 | searching distributes over concatenation, so the kept items stay in list order |
| `CounterSales.ItemValid` | src/pages/private/counter-sales/components/CreateCounterSales/index.jsx:58-70 | a line the item schema accepts carries an item id of at least 1, so it is not the blank row's 0, has a non-zero quantity and a chosen discount type, so none of the picker's fallbacks applies to it |
| `CounterSales.FormValid` | src/pages/private/counter-sales/components/CreateCounterSales/index.jsx:72-78 | a form the schema accepts has at least one line, and none of its lines is the blank row |
| `CounterSales.FormValidIgnoresDateAndRoundOff` | src/pages/private/counter-sales/components/CreateCounterSales/index.jsx:72-78 | the schema constrains neither the order date (any string) nor the round-off (optional number): changing them never changes validity |
| `CounterSales.DefaultFormInvalid` | src/pages/private/counter-sales/components/CreateCounterSales/index.jsx:58-99 | the initial form (empty customer, blank row with item id 0) does not pass the schema |
| `CounterSales.FillingDefaultFormMakesItValid` | src/pages/private/counter-sales/components/CreateCounterSales/index.jsx:72-99 | naming a customer and picking a valid catalog item for the blank row makes the form pass the schema |
| `CounterSales.PercentBounds` | src/pages/private/counter-sales/components/CreateCounterSales/index.jsx:144-147 | a rate in 0..100 takes between nothing and all of a non-negative base |
| `CounterSales.CalculateItemTotals` | src/pages/private/counter-sales/components/CreateCounterSales/index.jsx:132-149 | line total is quantity times price; the taxable amount is never negative and is the larger of zero and line total minus discount |
| `CounterSales.DiscountWithinLineTotal` | src/pages/private/counter-sales/components/CreateCounterSales/index.jsx:138 | a discount not above the line total is subtracted exactly |
| `CounterSales.ZeroDiscountTaxesLineTotal` | src/pages/private/counter-sales/components/CreateCounterSales/index.jsx:133-138 | with discount value 0 (either type) the discount is 0 and the whole non-negative line total is taxable |
| `CounterSales.FlatDiscountNotCapped` | src/pages/private/counter-sales/components/CreateCounterSales/index.jsx:134-138 | a flat discount above the line total is kept as entered, and the taxable amount and all four taxes are 0 |
| `CounterSales.TaxesIndependent` | src/pages/private/counter-sales/components/CreateCounterSales/index.jsx:144-147 | each tax depends only on the taxable amount and its own rate, with no compounding between taxes |
| `CounterSales.ValidLineBounded` | src/pages/private/counter-sales/components/CreateCounterSales/index.jsx:132-149 | for a line the schema accepts: line total, discount and taxable amount are non-negative, taxable is at most the line total, and each tax lies between 0 and the taxable amount; a percentage discount up to 100 is subtracted exactly |
| `CounterSales.BlankRowIsZero` | src/pages/private/counter-sales/components/CreateCounterSales/index.jsx:84-97 | the blank row (quantity 1, price 0, rates 0) yields all-zero line values |
| `CounterSales.ExampleLineValues` | src/pages/private/counter-sales/components/CreateCounterSales/index.jsx:132-149 | 2 x 500 with 10% off and 9% + 9% gives line total 1000, discount 100, taxable 900, CGST 81, SGST 81 |
| `CounterSales.ExampleInvoiceTotals` | src/pages/private/counter-sales/components/CreateCounterSales/index.jsx:173-174 | that single line gives total tax 162 and grand total 1062 plus the round-off |
| `CounterSales.ComputeTotals` | src/pages/private/counter-sales/components/CreateCounterSales/index.jsx:152-187 | each of the seven running sums equals the sum over all lines of that line value; total tax is CGST+SGST+IGST+Cess; grand total is taxable + tax + round-off, a missing round-off counting 0; no lines give all zeros and grand total = round-off |
| `CounterSales.SumConcat` | src/pages/private/counter-sales/components/CreateCounterSales/index.jsx:161-171 | the sums over two runs of lines add up to the sums over their concatenation |
| `CounterSales.AppendBlankRowKeepsTotals` | src/pages/private/counter-sales/components/CreateCounterSales/index.jsx:468-470 | "+ Add Item" (appending the blank row) leaves all nine figures unchanged |
| `CounterSales.RemoveRowSubtractsLine` | src/pages/private/counter-sales/components/CreateCounterSales/index.jsx:454 | removing row i lowers each of the seven sums by exactly that row's value |
| `CounterSales.RemoveRowLowersGrandTotal` | src/pages/private/counter-sales/components/CreateCounterSales/index.jsx:173-174 | removing row i lowers the grand total by that row's taxable amount plus its four taxes |
| `CounterSales.AppendThenRemoveRestoresTotals` | src/pages/private/counter-sales/components/CreateCounterSales/index.jsx:454-469 | appending a row and removing it again restores every figure |
| `CounterSales.MoveRowToEndKeepsTotals` | src/pages/private/counter-sales/components/CreateCounterSales/index.jsx:454-469 | removing row i and appending the same line again at the end leaves all nine figures unchanged: the totals do not depend on line order |
| `CounterSales.ValidItemsTotalsBounded` | src/pages/private/counter-sales/components/CreateCounterSales/index.jsx:161-171 | for lines the schema accepts, the summed figures obey the per-line bounds (nothing negative, taxable at most subtotal, each tax total at most the taxable total) |
| `CounterSales.RowTotalCellOmitsIgstAndCess` | src/pages/private/counter-sales/components/CreateCounterSales/index.jsx:444-448 | for one line, the grand total exceeds the row's "Total" cell by exactly that line's IGST and Cess |
| `CounterSales.LoadItems` | src/pages/private/counter-sales/components/CreateCounterSales/index.jsx:194-209 | the options are exactly the matching catalog items, in catalog order, each valued by its id and labelled "code - name" |
| `CounterSales.EmptyQueryOffersCatalog` | src/pages/private/counter-sales/components/CreateCounterSales/index.jsx:196-201 | an empty query offers the whole catalog in order |
| `CounterSales.HandleItemChange` | src/pages/private/counter-sales/components/CreateCounterSales/index.jsx:212-230 | no selection changes nothing; a selection copies id, code, name, price and the four rates into row i, turns a quantity of 0 into 1 and an empty discount type into PERCENTAGE, keeps the discount value, and leaves other rows alone |
| `CounterSales.SelectionKeepsValidEntries` | src/pages/private/counter-sales/components/CreateCounterSales/index.jsx:225-227 | picking an item for a valid row keeps its quantity, discount type and discount value |
| `CounterSales.SelectionMakesRowValid` | src/pages/private/counter-sales/components/CreateCounterSales/index.jsx:212-230 | picking a valid catalog record for a blank or valid row yields a line the schema accepts |
| `CounterSales.HandleFieldChange` | src/pages/private/counter-sales/components/CreateCounterSales/index.jsx:233-239 | row i takes the new value in the named field; every other field of row i and every other row is unchanged |
| `UnitConversions.FirstWithId` | src/pages/private/item-master/components/ItemMaster/UnitConversionsTab.jsx:105 | finds the first position carrying the id, or reports that none does |
| `UnitConversions.GetUnitName` | src/pages/private/item-master/components/ItemMaster/UnitConversionsTab.jsx:104-107 | the name of the first displayed unit with that id, or the id itself when no unit has it |
| `UnitConversions.SampleUnitNames` | src/pages/private/item-master/components/ItemMaster/UnitConversionsTab.jsx:32-42 | with no units supplied the six sample units are used ("unit2" reads "Kilogram (Kg)"; an unknown id reads as itself) |
| `UnitConversions.Validate` | src/pages/private/item-master/components/ItemMaster/UnitConversionsTab.jsx:51-76 | exactly one outcome, by the first failing check in order: from missing, to missing, same unit, factor not positive, ordered pair already present; none only when all pass |
| `UnitConversions.ReversePairAccepted` | src/pages/private/item-master/components/ItemMaster/UnitConversionsTab.jsx:69-71 | (B, A) is accepted when only (A, B) exists: duplicates are ordered pairs |
| `UnitConversions.AddPreservesValid` | src/pages/private/item-master/components/ItemMaster/UnitConversionsTab.jsx:59-87 | appending a conversion that passed the checks keeps every row well-formed and all ordered pairs distinct |
| `UnitConversions.DeleteConversion` | src/pages/private/item-master/components/ItemMaster/UnitConversionsTab.jsx:98-101 | a row remains exactly when it was there and its id differs from the deleted one |
| `UnitConversions.DeleteAbsentIdKeepsList` | src/pages/private/item-master/components/ItemMaster/UnitConversionsTab.jsx:99 | deleting an id no row carries leaves the list unchanged |
| `UnitConversions.DeleteKeepsOrder` | src/pages/private/item-master/components/ItemMaster/UnitConversionsTab.jsx:99 | deletion distributes over concatenation, so kept rows stay in order |
| `UnitConversions.DeletePreservesValid` | src/pages/private/item-master/components/ItemMaster/UnitConversionsTab.jsx:98-100 | deleting keeps the list invariant |
| `UnitConversions.UnitConversionsTab.constructor` | src/pages/private/item-master/components/ItemMaster/UnitConversionsTab.jsx:44-47 | the form starts with no units selected, factor 1 and no error |
| `UnitConversions.UnitConversionsTab.SelectFromUnit` | src/pages/private/item-master/components/ItemMaster/UnitConversionsTab.jsx:122 | sets the from unit and nothing else |
| `UnitConversions.UnitConversionsTab.SelectToUnit` | src/pages/private/item-master/components/ItemMaster/UnitConversionsTab.jsx:138 | sets the to unit and nothing else |
| `UnitConversions.UnitConversionsTab.EnterFactor` | src/pages/private/item-master/components/ItemMaster/UnitConversionsTab.jsx:156 | sets the factor and nothing else |
| `UnitConversions.UnitConversionsTab.UnitName` | src/pages/private/item-master/components/ItemMaster/UnitConversionsTab.jsx:201-202 | each list row shows the name of the first displayed unit carrying that id, or the id itself when no displayed unit has it |
| `UnitConversions.UnitConversionsTab.HandleAddConversion` | src/pages/private/item-master/components/ItemMaster/UnitConversionsTab.jsx:49-96 | on a failed check: the caller is not called, the message of the first failing check is shown, and the selections and factor are kept; on success: the caller receives the old list plus the new row at the end, and the form resets to "", "", 1 and no error |
| `ItemMaster.MaxId` | src/pages/private/item-master/index.jsx:66 | the largest id of a non-empty list: no id exceeds it and some item has it |
| `ItemMaster.NextId` | src/pages/private/item-master/index.jsx:66 | the new id exceeds every existing id; it is 1 for an empty list and otherwise one more than an existing id |
| `ItemMaster.AddKeepsIdsUnique` | src/pages/private/item-master/index.jsx:63-69 | adding appends one item with the data under an id no existing item has, keeps the earlier items, and keeps ids unique |
| `ItemMaster.SaveEdited` | src/pages/private/item-master/index.jsx:80-84 | same length and same ids; items with the edited id take the new fields under that id; all others are unchanged |
| `ItemMaster.SaveEditedKeepsIdsUnique` | src/pages/private/item-master/index.jsx:81-83 | saving an edit keeps ids unique |
| `ItemMaster.SaveEditedReplacesOne` | src/pages/private/item-master/index.jsx:79-85 | with unique ids, saving over item k replaces exactly item k, keeping its id |
| `ItemMaster.DeleteItem` | src/pages/private/item-master/index.jsx:93 | an item remains exactly when it was there and has a different id |
| `ItemMaster.DeleteKeepsIdsUnique` | src/pages/private/item-master/index.jsx:92-94 | deleting keeps ids unique |
| `ItemMaster.DeleteKeepsOrder` | src/pages/private/item-master/index.jsx:93 | deletion distributes over concatenation, so remaining items keep their order |
| `ItemMaster.ItemMasterPage.constructor` | src/pages/private/item-master/index.jsx:18-53 | the page starts with the three sample items (ids unique), the dialog closed, an empty search and no item in edit |
| `ItemMaster.ItemMasterPage.FilteredItems` | src/pages/private/item-master/index.jsx:56-60 | the table shows exactly the page's items that match the current search term, in list order |
| `ItemMaster.ItemMasterPage.SetSearchTerm` | src/pages/private/item-master/index.jsx:122 | sets the search term and nothing else |
| `ItemMaster.ItemMasterPage.HandleAddItem` | src/pages/private/item-master/index.jsx:63-69 | the list becomes the add result, ids stay unique, and nothing else changes |
| `ItemMaster.ItemMasterPage.HandleEditItem` | src/pages/private/item-master/index.jsx:72-75 | remembers the item for editing and opens the dialog |
| `ItemMaster.ItemMasterPage.OpenAddDialog` | src/pages/private/item-master/index.jsx:107-110 | clears the item in edit and opens the dialog |
| `ItemMaster.ItemMasterPage.CloseDialog` | src/pages/private/item-master/index.jsx:142 | closes the dialog and changes nothing else |
| `ItemMaster.ItemMasterPage.HandleSaveItem` | src/pages/private/item-master/index.jsx:78-89 | in edit mode the list becomes the edit-save result for the edited id; otherwise it becomes the add result; in both cases edit mode ends and ids stay unique |
| `ItemMaster.ItemMasterPage.HandleDeleteItem` | src/pages/private/item-master/index.jsx:92-94 | the list becomes the delete result, ids stay unique, and nothing else changes |
| `Sidebar.Toggle` | src/components/shared/Sidebar/index.jsx:22-26 | toggling flips whether the key is open and never changes whether any other key is open |
| `Sidebar.ToggleAbsentAppends` | src/components/shared/Sidebar/index.jsx:23-25 | an absent key is appended at the end and the others stay as they were |
| `Sidebar.TogglePresentKeepsOrder` | src/components/shared/Sidebar/index.jsx:24 | a present key is removed everywhere and the other keys keep their order |
| `Sidebar.ToggleTwiceRestores` | src/components/shared/Sidebar/index.jsx:23-25 | toggling an absent key twice restores the list exactly |
| `Sidebar.IsActiveRoute` | src/components/shared/Sidebar/index.jsx:28 | true exactly when a non-empty route is given and the path begins, character by character, with it |
| `Sidebar.PrefixNotSegment` | src/components/shared/Sidebar/index.jsx:28 | "/item" is active on "/item-master"; a missing or empty route is never active |
| `Sidebar.ClickSubEntry` | src/components/shared/Sidebar/index.jsx:77 | a click on a sub-menu entry leaves the open menus as they were and navigates to the entry's route, or to "" when it has none |
| `Sidebar.Click` | src/components/shared/Sidebar/index.jsx:47-51 | an entry with a sub-menu toggles its key and does not navigate; any other entry leaves the open keys alone and navigates to its route, or to "" when it has none |

## Left out

- HTTP services, the endpoint table, authentication, session storage, routing, layout, theme and the content pages are not part of this model. Among them, `src/services/api.js:75` calls `getItemPriceDetail`, while `src/services/endPoint.js:12` defines `getItemPriceDetails`.
- The 300 ms debounce and the effect that re-triggers it are not modelled. The recomputation is modelled as a synchronous function of the lines and the round-off. `setCalculations` becomes the record that `ComputeTotals` returns.
- Numbers are exact reals, so IEEE double rounding is not modelled. The `toFixed(2)` display rounding is left out too.
- NaN is not modelled. The source's `|| 1`, `|| 0` and `|| "PERCENTAGE"` fallbacks are modelled for the falsy values a real or a string can take: 0 and "".
- The `parseFloat`/`parseInt` fallbacks on raw input are left out: the unit price, quantity and discount inputs, and the conversion factor. Values arrive already as numbers. In particular, the conversion factor is kept as a real, while the source stores the text of the input field.
- The browser clock is a parameter. The default order date is `DefaultForm`'s `today`, and the new conversion id is `HandleAddConversion`'s `freshId`.
- Lower-casing covers ASCII letters only. JavaScript's `toLowerCase` is Unicode-aware.
- The schema's error messages are not modelled. The item and form schemas are modelled as predicates, and the item form's rules as `RecordValid`.
- The form library's `append` and `remove` are modelled as sequence append and `RemoveRow`. Field identities (`fields[i].id`) are not modelled.
- `HandleFieldChange` covers only the four fields the table edits: quantity, unit price, discount type and discount value. The source's computed key could write any field.
- The item dialog closes itself after a submit. That belongs to the dialog component, not to `HandleSaveItem`. The dialog also ignores the `defaultValues` the page passes it, which is rendering only.
- The sidebar's rendering is not modelled. Its menu configuration gives no entry a `key`, so every top-level key is undefined; the model's `MenuEntry.key` is an `Option` for that reason.
- The item picker's catalog is a parameter of `LoadItems`. The source always searches the three sample items, `Catalog.DummyItems`.
- The duplicate check in `Validate` is stated as "some row has this pair" (`HasPair`). The source's `find` returns the first such row, and only whether one exists matters.
