# Filter panel of the product catalog, in Dafny

This project models the filter panel of a React product-catalog front-end
(`src/assets/components/Filter.tsx`). The panel holds two pieces of state:

- `filters`, a `FilterState` record with the active category pair, brand,
  price range, free-shipping flag and minimum rating;
- `selectedCategory`, the top-level category whose sub-category list is
  expanded, or `null`.

Six event handlers change that state. Each reports the new filter record to the
parent through `onFilterChange`. The panel also derives two facet lists from its
`categories` property:

- the distinct top-level categories;
- the distinct non-empty sub-categories of one top-level category.

Both keep the order in which JavaScript's `Set` first saw each value.

Modules, one file each:

- `Optional` (`optional.dfy`): `Option`, standing for TypeScript's optional and nullable values.
- `SetOrder` (`set_order.dfy`): `Dedupe`, the meaning of `Array.from(new Set(xs))`.
  Three lemmas show that its result holds every input value exactly once, in
  first-occurrence order, and that no other sequence has those properties.
- `Facets` (`facets.dfy`): the `categories` entries, the top-level list and the
  sub-category list, with the same three properties stated against `categories`.
- `FilterStates` (`filter_state.dfy`): the record, its defaults, and the pure
  updater each handler passes to `setFilters` / `setSelectedCategory`. Each
  `setFilters` updater's contract uses `Changed(a, b)`, the set of fields in which two
  records differ, to say that only its own field(s) can change.
- `FilterComponent` (`filter_panel.dfy`): the component as a class. It has the two
  state fields and one method per handler. Each method returns the record it
  passes to `onFilterChange`.

Behaviour of the code that the model keeps, although a catalog facet panel
might be expected to behave otherwise:

- The top-level list applies no `filter(Boolean)` (Filter.tsx line 83). An entry
  with an empty `lvl0` therefore yields an empty top-level button. Only the
  sub-category list drops empty and absent values.
- The handlers do not check their arguments. `handlePriceChange` takes any pair.
  `handleRatingChange` takes any number, although the buttons only pass 1 to 5.
  The model keeps them unconstrained. `SliderRange` states what the slider's own
  bounds guarantee.
- Filter.tsx never resets its own state. "Clear" only calls the parent's `onClearFilters`.
- The brand list is a property that the parent passes in. It is not derived in Filter.tsx.
- Clicking the same parent twice restores `selectedCategory` only when nothing
  or that parent was selected before. If a different parent was expanded, two
  clicks leave nothing expanded (`ClickTwice`).

## Model

| member | source | states |
|---|---|---|
| `SetOrder.Dedupe` | src/assets/components/Filter.tsx:83 | `Array.from(new Set(s))`: every output value comes from `s`, every value of `s` is in the output, and no value is repeated |
| `SetOrder.DedupeExactlyOnce` | src/assets/components/Filter.tsx:83 | every value of the input occurs exactly once in the output (multiplicity 1) |
| `SetOrder.DedupeOrder` | src/assets/components/Filter.tsx:83 | output positions i < j hold values whose first occurrences in the input are in the same order |
| `SetOrder.DedupeListsFirstOccurrences` | src/assets/components/Filter.tsx:83 | the output holds exactly the input's values, each once, in first-occurrence order (with `DedupeUnique`, an if-and-only-if) |
| `SetOrder.DedupeUnique` | src/assets/components/Filter.tsx:83 | any sequence with the input's values, each once, in first-occurrence order equals the output: the set-from-array semantics is fully determined |
| `Facets.Lvl0s` | src/assets/components/Filter.tsx:83 | `categories.map((cat) => cat.lvl0)`: same length as `categories`; position k holds entry k's `lvl0` |
| `Facets.TopLevelCategories` | src/assets/components/Filter.tsx:83 | the top-level buttons: no repeats; every button is some entry's `lvl0`; every entry's `lvl0` (the empty one included) has a button |
| `Facets.TopLevelExactlyOnce` | src/assets/components/Filter.tsx:83 | each entry's `lvl0` appears exactly once among the top-level buttons |
| `Facets.TopLevelOrder` | src/assets/components/Filter.tsx:83 | top-level buttons follow the order of the first entry carrying each label |
| `Facets.TopLevelUnique` | src/assets/components/Filter.tsx:83 | the top-level list is the only distinct, complete, first-occurrence-ordered list of labels |
| `Facets.SubLabels` | src/assets/components/Filter.tsx:101-104 | filter by parent, map to `lvl1`, `filter(Boolean)`: a string is in the result iff it is non-empty and some entry pairs it with the parent |
| `Facets.SubCategories` | src/assets/components/Filter.tsx:99-105 | sub-category buttons of `parent`: no repeats, and a string is listed iff it is non-empty and some entry has `lvl0 == parent` and that `lvl1` |
| `Facets.SubCategoriesExactlyOnce` | src/assets/components/Filter.tsx:99-105 | each non-empty sub-category of the parent is listed exactly once |
| `Facets.SubLabelsOrder` | src/assets/components/Filter.tsx:101-104 | the filter/map/filter chain keeps the relative order of first entries of `categories` |
| `Facets.SubCategoriesOrder` | src/assets/components/Filter.tsx:99-105 | for buttons i < j, the first entry naming button i precedes the first entry naming button j |
| `Facets.SubCategoriesListed` | src/assets/components/Filter.tsx:99-105 | the sub-category list holds exactly the parent's non-empty sub-labels, each once, in first-occurrence order in `categories` |
| `Facets.SubCategoriesUnique` | src/assets/components/Filter.tsx:99-105 | the sub-category list is the only distinct, complete, first-occurrence-ordered list of the parent's non-empty sub-labels |
| `FilterStates.Initial` | src/assets/components/Filter.tsx:21-28 | the initial record: empty categories and brand, price range [84, 4000], no free shipping, rating 0 |
| `FilterStates.Changed` | src/assets/components/Filter.tsx:11-18 | the set of differing fields is empty iff the records are equal, and holds each field exactly when that field differs |
| `FilterStates.OrEmpty` | src/assets/components/Filter.tsx:36 | `categoryLvl1 \|\| ''` is empty exactly when the argument is absent or empty, and is the argument otherwise |
| `FilterStates.WithCategory` | src/assets/components/Filter.tsx:32-37 | sets `categoryLvl0` to the parent and `categoryLvl1` to the sub-category or `""`; no other field changes |
| `FilterStates.WithBrand` | src/assets/components/Filter.tsx:41-42 | sets `brand`; no other field changes |
| `FilterStates.WithPriceRange` | src/assets/components/Filter.tsx:46-47 | sets `priceRange`; no other field changes |
| `FilterStates.WithFreeShippingToggled` | src/assets/components/Filter.tsx:51-52 | negates `freeShipping`; exactly that field changes |
| `FilterStates.WithRating` | src/assets/components/Filter.tsx:56-57 | sets `rating`; no other field changes |
| `FilterStates.ToggleTwice` | src/assets/components/Filter.tsx:51-54 | toggling free shipping twice gives back the original record |
| `FilterStates.SameValueChangesNothing` | src/assets/components/Filter.tsx:32-59 | a handler given the value its field already holds leaves the record as it was |
| `FilterStates.ListedSubCategoryIsStored` | src/assets/components/Filter.tsx:99-110 | clicking a listed sub-category stores that parent and that sub-category: the `\|\| ''` fallback never erases a listed one |
| `FilterStates.SliderRange` | src/assets/components/Filter.tsx:165-170 | the slider reports [84, value]; for a value within the slider's bounds the range is ordered and within [84, 4000] |
| `FilterStates.NextSelection` | src/assets/components/Filter.tsx:62 | the expanded parent becomes none exactly when the clicked parent was expanded, and the clicked parent otherwise |
| `FilterStates.ClickTwice` | src/assets/components/Filter.tsx:61-64 | two clicks on one parent restore the selection iff nothing or that parent was selected; otherwise nothing stays selected |
| `FilterComponent.FilterPanel.constructor` | src/assets/components/Filter.tsx:21-30 | the component mounts with the initial record and no expanded parent |
| `FilterComponent.FilterPanel.HandleCategoryChange` | src/assets/components/Filter.tsx:32-39 | the new record is the category update of the old one; the selection is unchanged; the reported record equals the new one |
| `FilterComponent.FilterPanel.HandleBrandChange` | src/assets/components/Filter.tsx:41-44 | only `brand` changes; the selection is unchanged; the reported record equals the new one |
| `FilterComponent.FilterPanel.HandlePriceChange` | src/assets/components/Filter.tsx:46-49 | only `priceRange` changes; the selection is unchanged; the reported record equals the new one |
| `FilterComponent.FilterPanel.HandleSliderChange` | src/assets/components/Filter.tsx:165-170 | for a slider value within [84, 4000], the range becomes [84, value], ordered and within the slider's bounds; only `priceRange` changes; reports the new record |
| `FilterComponent.FilterPanel.HandleFreeShippingToggle` | src/assets/components/Filter.tsx:51-54 | exactly `freeShipping` changes, to its negation; the reported record equals the new one |
| `FilterComponent.FilterPanel.HandleRatingChange` | src/assets/components/Filter.tsx:56-59 | only `rating` changes; the selection is unchanged; the reported record equals the new one |
| `FilterComponent.FilterPanel.HandleParentCategoryClick` | src/assets/components/Filter.tsx:61-64 | toggles the expanded parent between none and the clicked one; sets `categoryLvl0` to it and `categoryLvl1` to `""`; reports the new record |
| `FilterComponent.ToggleFreeShippingTwice` | src/assets/components/Filter.tsx:51-54 | the first toggle reports the toggled record; two toggles on one panel restore its record and keep its selection |
| `FilterComponent.ClickParentTwice` | src/assets/components/Filter.tsx:61-64 | two clicks on one parent restore the selection iff nothing or that parent was expanded, and otherwise leave nothing expanded |

## Left out

- Rendering: the JSX, the class names (such as bold for the selected value) and
  the translated labels. The expansion of a sub-category list is modelled only
  as the `selectedCategory` field that controls it (line 97).
- `parseInt` of the slider value (line 170) is a library call. `SliderRange` and `HandleSliderChange` take the parsed integer.
- Prices and ratings are JavaScript floating-point numbers. They are modelled as integers.
- React's asynchronous state updates. The model runs one handler at a time, and
  the `filters` captured by a handler's closure equals the state its `setFilters`
  updater receives. A handler that ran against an older render is not modelled.
- `onFilterChange` and `onClearFilters` are callbacks into the parent component.
  Each handler returns the record it would report. Clearing is not part of Filter.tsx.
- The product fetch (`src/assets/components/ProductList.tsx`), the product card
  (`src/assets/components/ProductItem.tsx`), the header (`src/assets/components/Header.tsx`),
  `src/App.tsx` and the translation setup (`src/assets/i18n/i18n.ts`) are input/output or presentation.
- No file of the repository implements a search filter engine, a URL query codec
  or a match highlighter, so none is modelled.
