/**
 * The filter record of the panel and the state updates its handlers hand to
 * `setFilters` and `setSelectedCategory` (each a pure function of the previous state).
 */
module FilterStates {
  import opened Optional
  import Facets

  /** The price slider's bounds; the lower one is also the fixed lower end of every range it yields. */
  const MinPrice: int := 84
  const MaxPrice: int := 4000

  /** `FilterState`. Prices and ratings are JavaScript numbers; the model uses integers. */
  datatype FilterState = FilterState(
    categoryLvl0: string,
    categoryLvl1: string,
    brand: string,
    priceRange: (int, int),
    freeShipping: bool,
    rating: int)

  /** The state the panel starts with. */
  function Initial(): (f: FilterState)
    ensures f.categoryLvl0 == "" && f.categoryLvl1 == "" && f.brand == ""
    ensures f.priceRange == (MinPrice, MaxPrice) && f.priceRange == (84, 4000)
    ensures !f.freeShipping && f.rating == 0
  {
    FilterState("", "", "", (MinPrice, MaxPrice), false, 0)
  }

  /** The names of the fields of `FilterState`. */
  datatype Field = CategoryLvl0 | CategoryLvl1 | Brand | PriceRange | FreeShipping | Rating

  /** The fields in which `a` and `b` differ. */
  function Changed(a: FilterState, b: FilterState): (fs: set<Field>)
    ensures fs == {} <==> a == b
    ensures CategoryLvl0 in fs <==> a.categoryLvl0 != b.categoryLvl0
    ensures CategoryLvl1 in fs <==> a.categoryLvl1 != b.categoryLvl1
    ensures Brand in fs <==> a.brand != b.brand
    ensures PriceRange in fs <==> a.priceRange != b.priceRange
    ensures FreeShipping in fs <==> a.freeShipping != b.freeShipping
    ensures Rating in fs <==> a.rating != b.rating
  {
    (if a.categoryLvl0 != b.categoryLvl0 then {CategoryLvl0} else {})
    + (if a.categoryLvl1 != b.categoryLvl1 then {CategoryLvl1} else {})
    + (if a.brand != b.brand then {Brand} else {})
    + (if a.priceRange != b.priceRange then {PriceRange} else {})
    + (if a.freeShipping != b.freeShipping then {FreeShipping} else {})
    + (if a.rating != b.rating then {Rating} else {})
  }

  /** `categoryLvl1 || ''` for an optional string: only `undefined` and `''` are falsy. */
  function OrEmpty(s: Option<string>): (r: string)
    ensures r == "" <==> s == None || s == Some("")
    ensures s.Some? && s.value != "" ==> r == s.value
  {
    match s
    case None => ""
    case Some(v) => v
  }

  /** The update of `handleCategoryChange(categoryLvl0, categoryLvl1)`. */
  function WithCategory(prev: FilterState, lvl0: string, lvl1: Option<string>): (r: FilterState)
    ensures r.categoryLvl0 == lvl0
    ensures r.categoryLvl1 == OrEmpty(lvl1)
    ensures Changed(prev, r) <= {CategoryLvl0, CategoryLvl1}
  {
    prev.(categoryLvl0 := lvl0, categoryLvl1 := OrEmpty(lvl1))
  }

  /** The update of `handleBrandChange(brand)`. */
  function WithBrand(prev: FilterState, brand: string): (r: FilterState)
    ensures r.brand == brand
    ensures Changed(prev, r) <= {Brand}
  {
    prev.(brand := brand)
  }

  /** The update of `handlePriceChange(range)`. */
  function WithPriceRange(prev: FilterState, range: (int, int)): (r: FilterState)
    ensures r.priceRange == range
    ensures Changed(prev, r) <= {PriceRange}
  {
    prev.(priceRange := range)
  }

  /** The update of `handleFreeShippingToggle()`. */
  function WithFreeShippingToggled(prev: FilterState): (r: FilterState)
    ensures r.freeShipping == !prev.freeShipping
    ensures Changed(prev, r) == {FreeShipping}
  {
    prev.(freeShipping := !prev.freeShipping)
  }

  /** The update of `handleRatingChange(rating)`. */
  function WithRating(prev: FilterState, rating: int): (r: FilterState)
    ensures r.rating == rating
    ensures Changed(prev, r) <= {Rating}
  {
    prev.(rating := rating)
  }

  /** Toggling free shipping twice gives back the state toggled from. */
  lemma ToggleTwice(f: FilterState)
    ensures WithFreeShippingToggled(WithFreeShippingToggled(f)) == f
  {
  }

  /** A handler given the value its field already holds changes nothing. */
  lemma SameValueChangesNothing(f: FilterState)
    ensures WithBrand(f, f.brand) == f
    ensures WithPriceRange(f, f.priceRange) == f
    ensures WithRating(f, f.rating) == f
    ensures WithCategory(f, f.categoryLvl0, Some(f.categoryLvl1)) == f
  {
  }

  /**
   * Choosing a sub-category button stores it: the `|| ''` never erases a
   * listed sub-category, because `filter(Boolean)` removed the empty ones.
   */
  lemma ListedSubCategoryIsStored(f: FilterState, cats: seq<Facets.Category>, parent: string, sub: string)
    requires sub in Facets.SubCategories(cats, parent)
    ensures WithCategory(f, parent, Some(sub)).categoryLvl0 == parent
    ensures WithCategory(f, parent, Some(sub)).categoryLvl1 == sub
  {
  }

  /** `[84, parseInt(e.target.value)]`: the range the price slider reports. */
  function SliderRange(value: int): (r: (int, int))
    ensures r.0 == MinPrice && r.1 == value
    ensures MinPrice <= value <= MaxPrice ==> MinPrice <= r.0 <= r.1 <= MaxPrice
  {
    (MinPrice, value)
  }

  /** The update of `setSelectedCategory` in `handleParentCategoryClick(parent)`. */
  function NextSelection(prev: Option<string>, parent: string): (r: Option<string>)
    ensures r == None <==> prev == Some(parent)
    ensures r != None ==> r == Some(parent)
  {
    if prev == Some(parent) then None else Some(parent)
  }

  /**
   * Clicking the same parent twice restores the selection exactly when
   * nothing or that parent was selected; when another parent was selected,
   * the two clicks leave nothing selected.
   */
  lemma ClickTwice(prev: Option<string>, parent: string)
    ensures NextSelection(NextSelection(prev, parent), parent) == prev <==> prev == None || prev == Some(parent)
    ensures prev != None && prev != Some(parent) ==> NextSelection(NextSelection(prev, parent), parent) == None
  {
  }

}
