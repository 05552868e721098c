/**
 * The ingredient-name field with suggestions: the filter effect that picks at
 * most twenty catalogue ingredients containing the typed text, and the
 * handlers that change the text or pick a suggestion. The text is the
 * parent's state; here it is a field the handlers set, as the parent does.
 */
module Autocomplete {
  import opened Wrappers
  import opened Text
  import opened Lists
  import MealDb

  /** A TheMealDB catalogue ingredient. */
  type CatalogIngredient = MealDb.Ingredient

  const MaxSuggestions: nat := 20
  /** Texts shorter than this (in UTF-16 code units) get no suggestions. */
  const MinQueryLength: nat := 2

  /** `ing.strIngredient.toLowerCase().includes(query)`. */
  predicate MatchesQuery(query: string, ing: CatalogIngredient) {
    Contains(ToLower(ing.strIngredient), query)
  }

  /** Every catalogue ingredient matching the lower-cased text, in catalogue order. */
  function Matches(value: string, ingredients: seq<CatalogIngredient>): (r: seq<CatalogIngredient>)
    ensures forall x :: x in r <==> x in ingredients && MatchesQuery(ToLower(value), x)
  {
    Filter(ingredients, (ing: CatalogIngredient) => MatchesQuery(ToLower(value), ing))
  }

  /**
   * The suggestions the filter effect computes: none for an empty or
   * one-character text, otherwise the first twenty matches.
   */
  function Suggestions(value: string, ingredients: seq<CatalogIngredient>): (r: seq<CatalogIngredient>)
    ensures Utf16Length(value) < MinQueryLength ==> r == []
    ensures Utf16Length(value) >= MinQueryLength ==>
              |r| == (if |Matches(value, ingredients)| < MaxSuggestions then |Matches(value, ingredients)| else MaxSuggestions)
              && r == Matches(value, ingredients)[..|r|]
    ensures |r| <= MaxSuggestions
    ensures forall x :: x in r ==> x in ingredients && MatchesQuery(ToLower(value), x)
  {
    if value == [] || Utf16Length(value) < MinQueryLength then []
    else
      var r := Take(Matches(value, ingredients), MaxSuggestions);
      assert forall x :: x in r ==> x in Matches(value, ingredients);
      r
  }

  /** With fewer than twenty matches, every matching ingredient is suggested. */
  lemma FewMatchesAllSuggested(value: string, ingredients: seq<CatalogIngredient>, x: CatalogIngredient)
    requires Utf16Length(value) >= MinQueryLength
    requires |Matches(value, ingredients)| <= MaxSuggestions
    requires x in ingredients && MatchesQuery(ToLower(value), x)
    ensures x in Suggestions(value, ingredients)
  {
    assert Suggestions(value, ingredients) == Matches(value, ingredients);
  }

  /** The text's case does not matter: the lower-cased text gets the same suggestions. */
  lemma SuggestionsIgnoreCase(value: string, ingredients: seq<CatalogIngredient>)
    ensures Suggestions(ToLower(value), ingredients) == Suggestions(value, ingredients)
  {
    Utf16LengthOfLower(value);
    ToLowerIdempotent(value);
    assert Matches(ToLower(value), ingredients) == Matches(value, ingredients);
  }

  /** An ingredient matches the query made of its own lower-cased name. */
  lemma OwnNameMatches(ing: CatalogIngredient)
    ensures MatchesQuery(ToLower(ing.strIngredient), ing)
  {
    assert OccursAt(ToLower(ing.strIngredient), ToLower(ing.strIngredient), 0);
  }

  class AutocompleteInput {
    /** The text shown, owned by the parent. */
    var value: string
    /** The catalogue, loaded once. */
    var ingredients: seq<CatalogIngredient>
    var filteredIngredients: seq<CatalogIngredient>
    var showSuggestions: bool

    constructor(value: string)
      ensures this.value == value && ingredients == [] && filteredIngredients == [] && !showSuggestions
    {
      this.value := value;
      ingredients := [];
      filteredIngredients := [];
      showSuggestions := false;
    }

    /** The dropdown is drawn only when it is shown and there is something in it. */
    predicate DropdownVisible()
      reads this
    {
      showSuggestions && |filteredIngredients| > 0
    }

    /** The load effect: the catalogue, or nothing when the request failed (`None`); the list stays as it was on failure. */
    method LoadIngredients(loaded: Option<seq<CatalogIngredient>>)
      modifies this
      ensures ingredients == (if loaded.Some? then loaded.value else old(ingredients))
      ensures value == old(value) && filteredIngredients == old(filteredIngredients)
      ensures showSuggestions == old(showSuggestions)
    {
      if loaded.Some? {
        ingredients := loaded.value;
      }
    }

    /**
     * The filter effect, run after each render in which the text or the
     * catalogue changed: the suggestions for the text, shown iff there are any.
     */
    method FilterEffect()
      modifies this
      ensures filteredIngredients == Suggestions(value, ingredients)
      ensures showSuggestions <==> |filteredIngredients| > 0
      ensures DropdownVisible() <==> |Suggestions(value, ingredients)| > 0
      ensures value == old(value) && ingredients == old(ingredients)
    {
      if value == [] || Utf16Length(value) < MinQueryLength {
        filteredIngredients := [];
        showSuggestions := false;
        return;
      }
      var query := ToLower(value);
      var filtered := Take(Filter(ingredients, (ing: CatalogIngredient) => MatchesQuery(query, ing)), MaxSuggestions);
      filteredIngredients := filtered;
      showSuggestions := |filtered| > 0;
    }

    /** Typing: the parent takes the text, and a non-empty text asks for the dropdown. */
    method ChangeText(text: string)
      modifies this
      ensures value == text
      ensures showSuggestions == (if |text| > 0 then true else old(showSuggestions))
      ensures ingredients == old(ingredients) && filteredIngredients == old(filteredIngredients)
    {
      value := text;
      if |text| > 0 {
        showSuggestions := true;
      }
    }

    /** `handleSelect(ingredient)`: the text becomes the ingredient's name and the dropdown is hidden. */
    method HandleSelect(ingredient: CatalogIngredient)
      modifies this
      ensures value == ingredient.strIngredient && !showSuggestions && !DropdownVisible()
      ensures ingredients == old(ingredients) && filteredIngredients == old(filteredIngredients)
    {
      value := ingredient.strIngredient;
      showSuggestions := false;
    }
  }

  /**
   * Picking a suggestion changes the text, so the filter effect runs again
   * afterwards; when the picked name has at least two characters and is among
   * the first twenty matches of itself, the dropdown comes back holding it.
   */
  lemma SelectionIsFollowedByItsOwnSuggestion(ing: CatalogIngredient, ingredients: seq<CatalogIngredient>)
    requires ing in ingredients
    requires Utf16Length(ing.strIngredient) >= MinQueryLength
    requires |Matches(ing.strIngredient, ingredients)| <= MaxSuggestions
    ensures ing in Suggestions(ing.strIngredient, ingredients)
  {
    OwnNameMatches(ing);
    FewMatchesAllSuggested(ing.strIngredient, ingredients, ing);
  }
}
