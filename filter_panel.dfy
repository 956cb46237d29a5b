/**
 * The filter panel component: the two pieces of state it holds (`filters` and
 * `selectedCategory`) and its event handlers. Each handler returns the value it
 * passes to `onFilterChange`. The model runs one handler at a time, so the
 * `filters` a handler reads is the state its `setFilters` updater receives.
 */
module FilterComponent {
  import opened Optional
  import opened FilterStates

  class FilterPanel {
    /** The filter record (`useState<FilterState>`). */
    var filters: FilterState
    /** The top-level category whose sub-category list is expanded, or none. */
    var selectedCategory: Option<string>

    /** The state the component mounts with. */
    constructor ()
      ensures filters == Initial()
      ensures filters.categoryLvl0 == "" && filters.categoryLvl1 == "" && filters.brand == ""
      ensures filters.priceRange == (84, 4000) && !filters.freeShipping && filters.rating == 0
      ensures selectedCategory == None
    {
      filters := Initial();
      selectedCategory := None;
    }

    /** `handleCategoryChange(categoryLvl0, categoryLvl1?)`. */
    method HandleCategoryChange(lvl0: string, lvl1: Option<string>) returns (reported: FilterState)
      modifies this
      ensures filters == WithCategory(old(filters), lvl0, lvl1)
      ensures filters.categoryLvl0 == lvl0 && filters.categoryLvl1 == OrEmpty(lvl1)
      ensures Changed(old(filters), filters) <= {CategoryLvl0, CategoryLvl1}
      ensures selectedCategory == old(selectedCategory)
      ensures reported == filters
    {
      var rendered := filters;
      filters := WithCategory(filters, lvl0, lvl1);
      reported := rendered.(categoryLvl0 := lvl0, categoryLvl1 := OrEmpty(lvl1));
    }

    /** `handleBrandChange(brand)`. */
    method HandleBrandChange(brand: string) returns (reported: FilterState)
      modifies this
      ensures filters == WithBrand(old(filters), brand)
      ensures filters.brand == brand && Changed(old(filters), filters) <= {Brand}
      ensures selectedCategory == old(selectedCategory)
      ensures reported == filters
    {
      var rendered := filters;
      filters := WithBrand(filters, brand);
      reported := rendered.(brand := brand);
    }

    /** `handlePriceChange(range)`. */
    method HandlePriceChange(range: (int, int)) returns (reported: FilterState)
      modifies this
      ensures filters == WithPriceRange(old(filters), range)
      ensures filters.priceRange == range && Changed(old(filters), filters) <= {PriceRange}
      ensures selectedCategory == old(selectedCategory)
      ensures reported == filters
    {
      var rendered := filters;
      filters := WithPriceRange(filters, range);
      reported := rendered.(priceRange := range);
    }

    /**
     * The slider's `onChange`: `handlePriceChange([84, value])`, where the
     * slider's own bounds keep `value` within [84, 4000].
     */
    method HandleSliderChange(value: int) returns (reported: FilterState)
      requires MinPrice <= value <= MaxPrice
      modifies this
      ensures filters == WithPriceRange(old(filters), SliderRange(value))
      ensures filters.priceRange == (MinPrice, value)
      ensures MinPrice <= filters.priceRange.0 <= filters.priceRange.1 <= MaxPrice
      ensures Changed(old(filters), filters) <= {PriceRange}
      ensures selectedCategory == old(selectedCategory)
      ensures reported == filters
    {
      reported := HandlePriceChange(SliderRange(value));
    }

    /** `handleFreeShippingToggle()`. */
    method HandleFreeShippingToggle() returns (reported: FilterState)
      modifies this
      ensures filters == WithFreeShippingToggled(old(filters))
      ensures filters.freeShipping == !old(filters).freeShipping
      ensures Changed(old(filters), filters) == {FreeShipping}
      ensures selectedCategory == old(selectedCategory)
      ensures reported == filters
    {
      var rendered := filters;
      filters := WithFreeShippingToggled(filters);
      reported := rendered.(freeShipping := !rendered.freeShipping);
    }

    /** `handleRatingChange(rating)`. */
    method HandleRatingChange(rating: int) returns (reported: FilterState)
      modifies this
      ensures filters == WithRating(old(filters), rating)
      ensures filters.rating == rating && Changed(old(filters), filters) <= {Rating}
      ensures selectedCategory == old(selectedCategory)
      ensures reported == filters
    {
      var rendered := filters;
      filters := WithRating(filters, rating);
      reported := rendered.(rating := rating);
    }

    /**
     * `handleParentCategoryClick(parentCategory)`: toggles which sub-category
     * list is expanded, then selects the parent with no sub-category.
     */
    method HandleParentCategoryClick(parent: string) returns (reported: FilterState)
      modifies this
      ensures selectedCategory == NextSelection(old(selectedCategory), parent)
      ensures selectedCategory == (if old(selectedCategory) == Some(parent) then None else Some(parent))
      ensures filters == WithCategory(old(filters), parent, None)
      ensures filters.categoryLvl0 == parent && filters.categoryLvl1 == ""
      ensures Changed(old(filters), filters) <= {CategoryLvl0, CategoryLvl1}
      ensures reported == filters
    {
      selectedCategory := NextSelection(selectedCategory, parent);
      reported := HandleCategoryChange(parent, None);
    }
  }

  /**
   * Two toggles of the free-shipping switch, run in sequence on one panel,
   * give back the filter state and the selection the panel had.
   */
  method ToggleFreeShippingTwice(panel: FilterPanel) returns (first: FilterState, second: FilterState)
    modifies panel
    ensures first == WithFreeShippingToggled(old(panel.filters))
    ensures first.freeShipping == !old(panel.filters).freeShipping
    ensures second == old(panel.filters) && panel.filters == old(panel.filters)
    ensures panel.selectedCategory == old(panel.selectedCategory)
  {
    first := panel.HandleFreeShippingToggle();
    second := panel.HandleFreeShippingToggle();
    ToggleTwice(old(panel.filters));
  }

  /**
   * Two clicks on the same parent, run in sequence on one panel, restore the
   * expanded list exactly when nothing or that parent was expanded before.
   */
  method ClickParentTwice(panel: FilterPanel, parent: string) returns (second: FilterState)
    modifies panel
    ensures (panel.selectedCategory == old(panel.selectedCategory)) <==>
            (old(panel.selectedCategory) == None || old(panel.selectedCategory) == Some(parent))
    ensures panel.selectedCategory == NextSelection(NextSelection(old(panel.selectedCategory), parent), parent)
    ensures old(panel.selectedCategory) != None && old(panel.selectedCategory) != Some(parent) ==> panel.selectedCategory == None
    ensures panel.filters == WithCategory(old(panel.filters), parent, None) && second == panel.filters
  {
    var _ := panel.HandleParentCategoryClick(parent);
    second := panel.HandleParentCategoryClick(parent);
    ClickTwice(old(panel.selectedCategory), parent);
  }

}
