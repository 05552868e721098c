/**
 * The recipe filter sheet: a tab per filter kind, the selected chip, and the
 * handlers that apply or reset the filter and sync the selection when the
 * sheet opens. The three list queries are fields holding their data and
 * loading flag; fetching them is not modelled.
 */
module FilterSheet {
  import opened Wrappers
  import opened Text
  import MealDb

  /** `'category' | 'area' | 'ingredient'`. */
  datatype FilterType = Category | AreaTab | IngredientTab

  /** `{ type, value }`, the filter handed to `onApply`. */
  datatype RecipeFilter = RecipeFilter(filterType: FilterType, value: string)

  /** How many ingredient chips are listed at most. */
  const MaxIngredientChips: nat := 50

  /** `handleApply`'s argument to `onApply`: the selection on the active tab when it is truthy, `null` otherwise. */
  function AppliedFilter(activeTab: FilterType, selectedValue: Option<string>): (r: Option<RecipeFilter>)
    ensures r.Some? <==> Truthy(selectedValue)
    ensures r.Some? ==> r.value.filterType == activeTab && r.value.value == selectedValue.value && r.value.value != ""
  {
    if Truthy(selectedValue) then Some(RecipeFilter(activeTab, selectedValue.value)) else None
  }

  /** The open effect: a current filter restores its tab and value; without one the selection is cleared and the tab kept. */
  function SyncOnOpen(activeTab: FilterType, selectedValue: Option<string>, currentFilter: Option<RecipeFilter>): (FilterType, Option<string>)
  {
    if currentFilter.Some? then (currentFilter.value.filterType, Some(currentFilter.value.value))
    else (activeTab, None)
  }

  /** Opening with a filter and applying at once hands back that very filter; opening without one and applying clears the filter. */
  lemma OpenThenApplyRoundTrip(activeTab: FilterType, selectedValue: Option<string>, currentFilter: Option<RecipeFilter>)
    requires currentFilter.Some? ==> currentFilter.value.value != ""
    ensures var synced := SyncOnOpen(activeTab, selectedValue, currentFilter);
            AppliedFilter(synced.0, synced.1) == currentFilter
  {
  }

  /** The chip labels of the active tab: all category names, all area names, or the first fifty ingredient names. */
  function Items(activeTab: FilterType, categories: Option<seq<MealDb.CategoryName>>, areas: Option<seq<MealDb.Area>>,
                 ingredients: Option<seq<MealDb.Ingredient>>): (items: seq<string>)
    ensures activeTab == Category ==>
              |items| == |MealDb.ListOrEmpty(categories)|
              && forall k :: 0 <= k < |items| ==> items[k] == MealDb.ListOrEmpty(categories)[k].strCategory
    ensures activeTab == AreaTab ==>
              |items| == |MealDb.ListOrEmpty(areas)|
              && forall k :: 0 <= k < |items| ==> items[k] == MealDb.ListOrEmpty(areas)[k].strArea
    ensures activeTab == IngredientTab ==>
              |items| <= MaxIngredientChips && |items| <= |MealDb.ListOrEmpty(ingredients)|
              && (|items| < MaxIngredientChips ==> |items| == |MealDb.ListOrEmpty(ingredients)|)
              && forall k :: 0 <= k < |items| ==> items[k] == MealDb.ListOrEmpty(ingredients)[k].strIngredient
  {
    match activeTab
    case Category =>
      var list := MealDb.ListOrEmpty(categories);
      seq(|list|, k requires 0 <= k < |list| => list[k].strCategory)
    case AreaTab =>
      var list := MealDb.ListOrEmpty(areas);
      seq(|list|, k requires 0 <= k < |list| => list[k].strArea)
    case IngredientTab =>
      var all := MealDb.ListOrEmpty(ingredients);
      var list := if |all| <= MaxIngredientChips then all else all[..MaxIngredientChips];
      seq(|list|, k requires 0 <= k < |list| => list[k].strIngredient)
  }

  /** Missing data on the active tab lists no chips. */
  lemma MissingDataGivesNoItems(activeTab: FilterType, categories: Option<seq<MealDb.CategoryName>>,
                                areas: Option<seq<MealDb.Area>>, ingredients: Option<seq<MealDb.Ingredient>>)
    requires activeTab == Category ==> categories.None?
    requires activeTab == AreaTab ==> areas.None?
    requires activeTab == IngredientTab ==> ingredients.None?
    ensures Items(activeTab, categories, areas, ingredients) == []
  {
  }

  /** `isLoading`: the loading flag of the active tab's query. */
  function IsLoading(activeTab: FilterType, loadingCategories: bool, loadingAreas: bool, loadingIngredients: bool): (loading: bool)
    ensures activeTab == Category ==> (loading <==> loadingCategories)
    ensures activeTab == AreaTab ==> (loading <==> loadingAreas)
    ensures activeTab == IngredientTab ==> (loading <==> loadingIngredients)
  {
    if activeTab == Category then loadingCategories
    else if activeTab == AreaTab then loadingAreas
    else loadingIngredients
  }

  /** The sheet's state. */
  class FilterModal {
    var visible: bool
    var activeTab: FilterType
    var selectedValue: Option<string>
    var categories: Option<seq<MealDb.CategoryName>>
    var areas: Option<seq<MealDb.Area>>
    var ingredients: Option<seq<MealDb.Ingredient>>
    var loadingCategories: bool
    var loadingAreas: bool
    var loadingIngredients: bool

    /** The first render: the category tab, and the current filter's value if it is truthy. */
    constructor(visible: bool, currentFilter: Option<RecipeFilter>)
      ensures this.visible == visible && activeTab == Category
      ensures selectedValue == (if currentFilter.Some? && currentFilter.value.value != "" then Some(currentFilter.value.value) else None)
      ensures categories == None && areas == None && ingredients == None
      ensures !loadingCategories && !loadingAreas && !loadingIngredients
    {
      this.visible := visible;
      activeTab := Category;
      selectedValue := if currentFilter.Some? && currentFilter.value.value != "" then Some(currentFilter.value.value) else None;
      categories, areas, ingredients := None, None, None;
      loadingCategories, loadingAreas, loadingIngredients := false, false, false;
    }

    /** The chips shown now. */
    function CurrentItems(): seq<string>
      reads this
    {
      Items(activeTab, categories, areas, ingredients)
    }

    /** The sheet becomes visible and the open effect syncs the selection with the current filter. */
    method Open(currentFilter: Option<RecipeFilter>)
      modifies this
      ensures visible
      ensures (activeTab, selectedValue) == SyncOnOpen(old(activeTab), old(selectedValue), currentFilter)
      ensures categories == old(categories) && areas == old(areas) && ingredients == old(ingredients)
      ensures loadingCategories == old(loadingCategories) && loadingAreas == old(loadingAreas)
              && loadingIngredients == old(loadingIngredients)
    {
      visible := true;
      if currentFilter.Some? {
        activeTab := currentFilter.value.filterType;
        selectedValue := Some(currentFilter.value.value);
      } else {
        selectedValue := None;
      }
    }

    /** Pressing a tab: that tab becomes active and the selection is cleared. */
    method SelectTab(tab: FilterType)
      modifies this
      ensures activeTab == tab && selectedValue == None
      ensures visible == old(visible) && categories == old(categories) && areas == old(areas) && ingredients == old(ingredients)
      ensures loadingCategories == old(loadingCategories) && loadingAreas == old(loadingAreas)
              && loadingIngredients == old(loadingIngredients)
    {
      activeTab := tab;
      selectedValue := None;
    }

    /** Pressing a chip selects its label. */
    method SelectItem(item: string)
      modifies this
      ensures selectedValue == Some(item)
      ensures activeTab == old(activeTab) && visible == old(visible)
      ensures categories == old(categories) && areas == old(areas) && ingredients == old(ingredients)
      ensures loadingCategories == old(loadingCategories) && loadingAreas == old(loadingAreas)
              && loadingIngredients == old(loadingIngredients)
    {
      selectedValue := Some(item);
    }

    /** `handleApply()`: hands the selection (or `null`) to `onApply`, then closes. */
    method HandleApply() returns (applied: Option<RecipeFilter>)
      modifies this
      ensures applied == AppliedFilter(activeTab, selectedValue)
      ensures !visible && activeTab == old(activeTab) && selectedValue == old(selectedValue)
      ensures categories == old(categories) && areas == old(areas) && ingredients == old(ingredients)
      ensures loadingCategories == old(loadingCategories) && loadingAreas == old(loadingAreas)
              && loadingIngredients == old(loadingIngredients)
    {
      if Truthy(selectedValue) {
        applied := Some(RecipeFilter(activeTab, selectedValue.value));
      } else {
        applied := None;
      }
      visible := false;
    }

    /** `handleReset()`: clears the selection, hands `null` to `onApply`, then closes. */
    method HandleReset() returns (applied: Option<RecipeFilter>)
      modifies this
      ensures applied == None && selectedValue == None && !visible
      ensures activeTab == old(activeTab)
      ensures categories == old(categories) && areas == old(areas) && ingredients == old(ingredients)
      ensures loadingCategories == old(loadingCategories) && loadingAreas == old(loadingAreas)
              && loadingIngredients == old(loadingIngredients)
    {
      selectedValue := None;
      applied := None;
      visible := false;
    }
  }
}
