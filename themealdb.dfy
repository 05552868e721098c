/**
 * The pure helpers of the TheMealDB client: reading the twenty numbered
 * ingredient/measure slots of a meal, the ingredient thumbnail URL, and the
 * defaults applied to a list response. The HTTP requests themselves are not
 * modelled; a response's JSON arrives as a parameter.
 */
module MealDb {
  import opened Wrappers
  import opened Text
  import UriEncoding

  /** The number of `strIngredient<i>` / `strMeasure<i>` slots a meal carries. */
  const SlotCount: nat := 20

  const IngredientImagesBase: string := "https://www.themealdb.com/images/ingredients/"

  /**
   * A full meal record. `ingredients[i]` is `strIngredient<i>` and
   * `measures[i]` is `strMeasure<i>`; a key that is missing stands for a
   * field that is `null` or absent.
   */
  datatype Meal = Meal(
    idMeal: string,
    strMeal: string,
    ingredients: map<nat, string>,
    measures: map<nat, string>)

  /** The list entries the filter lists are built from (`list.php?c=list`, `?a=list`, `?i=list`), as far as the app reads them. */
  datatype CategoryName = CategoryName(strCategory: string)
  datatype Area = Area(strArea: string)
  datatype Ingredient = Ingredient(idIngredient: string, strIngredient: string)

  /** One `{ ingredient, measure }` entry of `extractIngredients`. */
  datatype IngredientLine = IngredientLine(ingredient: string, measure: string)

  // ---------------------------------------------------------------------------
  // extractIngredients
  // ---------------------------------------------------------------------------

  /** `ingredient && ingredient.trim()`: slot `i` holds an ingredient that is not blank. */
  predicate HasIngredient(meal: Meal, i: nat) {
    i in meal.ingredients && !IsBlank(meal.ingredients[i])
  }

  /** The entry slot `i` contributes: the trimmed ingredient and `measure?.trim() || ''`. */
  function LineAt(meal: Meal, i: nat): IngredientLine
    requires HasIngredient(meal, i)
  {
    IngredientLine(
      Trim(meal.ingredients[i]),
      if i in meal.measures then Trim(meal.measures[i]) else "")
  }

  /** The entries slots `1..n` contribute, in slot order. */
  function LinesUpTo(meal: Meal, n: nat): seq<IngredientLine>
  {
    if n == 0 then []
    else LinesUpTo(meal, n - 1) + (if HasIngredient(meal, n) then [LineAt(meal, n)] else [])
  }

  /** The slots among `1..n` that hold a non-blank ingredient, in increasing order. */
  function FilledSlots(meal: Meal, n: nat): seq<nat>
  {
    if n == 0 then []
    else FilledSlots(meal, n - 1) + (if HasIngredient(meal, n) then [n] else [])
  }

  /** `extractIngredients(meal)`: the loop over slots 1..20 pushing one entry per non-blank ingredient. */
  method ExtractIngredients(meal: Meal) returns (lines: seq<IngredientLine>)
    ensures lines == LinesUpTo(meal, SlotCount)
    ensures |lines| <= SlotCount
  {
    lines := [];
    var i := 1;
    while i <= SlotCount
      invariant 1 <= i <= SlotCount + 1
      invariant lines == LinesUpTo(meal, i - 1)
    {
      if i in meal.ingredients && !IsBlank(meal.ingredients[i]) {
        var measure := if i in meal.measures then Trim(meal.measures[i]) else "";
        lines := lines + [IngredientLine(Trim(meal.ingredients[i]), measure)];
      }
      i := i + 1;
    }
    ExtractedAreFilledSlots(meal, SlotCount);
  }

  /** One entry per filled slot, the `k`-th entry coming from the `k`-th filled slot. */
  lemma {:induction false} LinesFollowFilledSlots(meal: Meal, n: nat)
    ensures |LinesUpTo(meal, n)| == |FilledSlots(meal, n)|
    ensures forall k :: 0 <= k < |FilledSlots(meal, n)| ==>
              HasIngredient(meal, FilledSlots(meal, n)[k])
              && LinesUpTo(meal, n)[k] == LineAt(meal, FilledSlots(meal, n)[k])
  {
    if n > 0 {
      LinesFollowFilledSlots(meal, n - 1);
      var lines, slots := LinesUpTo(meal, n - 1), FilledSlots(meal, n - 1);
      if HasIngredient(meal, n) {
        assert LinesUpTo(meal, n) == lines + [LineAt(meal, n)];
        assert FilledSlots(meal, n) == slots + [n];
      } else {
        assert LinesUpTo(meal, n) == lines;
        assert FilledSlots(meal, n) == slots;
      }
    }
  }

  /** The filled slots among `1..n` are within bounds and strictly increasing, so at most `n`. */
  lemma {:induction false} FilledSlotsIncreasing(meal: Meal, n: nat)
    ensures |FilledSlots(meal, n)| <= n
    ensures forall k :: 0 <= k < |FilledSlots(meal, n)| ==> 1 <= FilledSlots(meal, n)[k] <= n
    ensures forall k, l :: 0 <= k < l < |FilledSlots(meal, n)| ==> FilledSlots(meal, n)[k] < FilledSlots(meal, n)[l]
  {
    if n > 0 {
      FilledSlotsIncreasing(meal, n - 1);
    }
  }

  /** Every slot among `1..n` with a non-blank ingredient is among the filled slots. */
  lemma {:induction false} FilledSlotsComplete(meal: Meal, n: nat)
    ensures forall s :: 1 <= s <= n && HasIngredient(meal, s) ==> s in FilledSlots(meal, n)
  {
    if n > 0 {
      FilledSlotsComplete(meal, n - 1);
    }
  }

  /**
   * The entries are exactly the slots among `1..n` with a non-blank ingredient,
   * one entry per such slot, in increasing slot order.
   */
  lemma ExtractedAreFilledSlots(meal: Meal, n: nat)
    ensures |LinesUpTo(meal, n)| == |FilledSlots(meal, n)| <= n
    ensures forall k :: 0 <= k < |FilledSlots(meal, n)| ==>
              1 <= FilledSlots(meal, n)[k] <= n && HasIngredient(meal, FilledSlots(meal, n)[k])
              && LinesUpTo(meal, n)[k] == LineAt(meal, FilledSlots(meal, n)[k])
    ensures forall k, l :: 0 <= k < l < |FilledSlots(meal, n)| ==> FilledSlots(meal, n)[k] < FilledSlots(meal, n)[l]
    ensures forall s :: 1 <= s <= n && HasIngredient(meal, s) ==> s in FilledSlots(meal, n)
  {
    LinesFollowFilledSlots(meal, n);
    FilledSlotsIncreasing(meal, n);
    FilledSlotsComplete(meal, n);
  }

  /** Every entry holds a trimmed, non-empty ingredient and a trimmed measure. */
  lemma LineWellFormed(meal: Meal, i: nat)
    requires HasIngredient(meal, i)
    ensures LineAt(meal, i).ingredient != ""
    ensures Trim(LineAt(meal, i).ingredient) == LineAt(meal, i).ingredient
    ensures Trim(LineAt(meal, i).measure) == LineAt(meal, i).measure
    ensures i !in meal.measures ==> LineAt(meal, i).measure == ""
  {
    var line := LineAt(meal, i);
    assert line.ingredient == Trim(meal.ingredients[i]);
    TrimIdempotent(meal.ingredients[i]);
    if i in meal.measures {
      assert line.measure == Trim(meal.measures[i]);
      TrimIdempotent(meal.measures[i]);
    } else {
      assert line.measure == "";
    }
  }

  /** Two meals that agree on slots `1..n` give the same entries: slots past the bound are never read. */
  lemma {:induction false} OnlyLowSlotsRead(meal: Meal, other: Meal, n: nat)
    requires forall i :: 1 <= i <= n ==>
               (i in meal.ingredients <==> i in other.ingredients)
               && (i in meal.ingredients ==> meal.ingredients[i] == other.ingredients[i])
               && (i in meal.measures <==> i in other.measures)
               && (i in meal.measures ==> meal.measures[i] == other.measures[i])
    ensures LinesUpTo(meal, n) == LinesUpTo(other, n)
  {
    if n > 0 {
      OnlyLowSlotsRead(meal, other, n - 1);
    }
  }

  // ---------------------------------------------------------------------------
  // getIngredientThumbUrl
  // ---------------------------------------------------------------------------

  datatype ThumbSize = Small | Medium

  /** The size suffix of a thumbnail file name. */
  function SizeSuffix(size: ThumbSize): string {
    if size == Small then "-Small" else ""
  }

  /** `getIngredientThumbUrl(name, size)`; the source's default size is `Small`. */
  function IngredientThumbUrl(name: string, size: ThumbSize): string
  {
    IngredientImagesBase + (UriEncoding.Encode(name) + (SizeSuffix(size) + ".png"))
  }

  /** A thumbnail URL lies under the TheMealDB ingredient image folder. */
  lemma ThumbUrlInFolder(name: string, size: ThumbSize)
    ensures StartsWith(IngredientThumbUrl(name, size), IngredientImagesBase)
  {
    var url := IngredientThumbUrl(name, size);
    assert url[..|IngredientImagesBase|] == IngredientImagesBase;
  }

  /** A thumbnail URL names a `.png` file, `-Small.png` for the small size and a plain `.png` for the medium one. */
  lemma ThumbUrlSizeSuffix(name: string, size: ThumbSize)
    ensures EndsWith(IngredientThumbUrl(name, size), SizeSuffix(size) + ".png")
    ensures size == Small ==> EndsWith(IngredientThumbUrl(name, size), "-Small.png")
  {
    var tail := SizeSuffix(size) + ".png";
    var url := IngredientThumbUrl(name, size);
    assert url[|url| - |tail|..] == tail;
  }

  /** The encoded name cannot leave the folder or start a query or a fragment, whatever the name holds. */
  lemma ThumbUrlStaysInFolder(name: string, size: ThumbSize)
    ensures var file := IngredientThumbUrl(name, size)[|IngredientImagesBase|..];
            '/' !in file && '?' !in file && '#' !in file
  {
    var encoded := UriEncoding.Encode(name);
    var tail := SizeSuffix(size) + ".png";
    var file := encoded + tail;
    var url := IngredientThumbUrl(name, size);
    assert url[|IngredientImagesBase|..] == file;
    UriEncoding.EncodeHasNoDelimiters(name);
    assert '/' !in tail && '?' !in tail && '#' !in tail;
  }

  /** Reads the ingredient name back out of a thumbnail URL of the given size. */
  function ThumbName(url: string, size: ThumbSize): Option<string>
  {
    var tail := SizeSuffix(size) + ".png";
    if |url| >= |IngredientImagesBase| + |tail| && StartsWith(url, IngredientImagesBase) && EndsWith(url, tail)
    then Some(UriEncoding.DecodeAscii(url[|IngredientImagesBase|..|url| - |tail|]))
    else None
  }

  /** For an ASCII name the thumbnail URL determines the name: the URL is built injectively. */
  lemma ThumbUrlRoundTrip(name: string, size: ThumbSize)
    requires forall i :: 0 <= i < |name| ==> name[i] as int < 0x80
    ensures ThumbName(IngredientThumbUrl(name, size), size) == Some(name)
  {
    var encoded := UriEncoding.Encode(name);
    var tail := SizeSuffix(size) + ".png";
    var url := IngredientThumbUrl(name, size);
    assert url == IngredientImagesBase + encoded + tail;
    assert |url| == |IngredientImagesBase| + |encoded| + |tail|;
    ThumbUrlInFolder(name, size);
    ThumbUrlSizeSuffix(name, size);
    assert url[|IngredientImagesBase|..|url| - |tail|] == encoded;
    UriEncoding.DecodeEncodeAscii(name);
    assert ThumbName(url, size) == Some(UriEncoding.DecodeAscii(encoded));
  }

  // ---------------------------------------------------------------------------
  // Response defaults
  // ---------------------------------------------------------------------------

  /**
   * `data.meals || []` (and `data.categories || []`): the list field of a
   * response, or the empty list when it is `null` or absent. A present list is
   * returned as it is, even when empty, since every array is truthy.
   */
  function ListOrEmpty<T>(field: Option<seq<T>>): (r: seq<T>)
    ensures field.None? ==> r == []
    ensures field.Some? ==> r == field.value
  {
    match field
    case None => []
    case Some(items) => items
  }

  /**
   * `data.meals ? data.meals[0] : null` (`getMealById`, `getRandomMeal`): the first
   * meal, and nothing when the field is absent. A present but empty list yields
   * `undefined`, which is represented as absent too.
   */
  function FirstMeal(field: Option<seq<Meal>>): (r: Option<Meal>)
    ensures r.Some? <==> field.Some? && |field.value| > 0
    ensures r.Some? ==> r.value == field.value[0]
  {
    match field
    case None => None
    case Some(meals) => if |meals| > 0 then Some(meals[0]) else None
  }

  /** The lookup and the list helpers agree: the first meal is the head of the defaulted list. */
  lemma FirstMealIsHeadOfList(field: Option<seq<Meal>>)
    ensures FirstMeal(field).Some? <==> ListOrEmpty(field) != []
    ensures FirstMeal(field).Some? ==> FirstMeal(field).value == ListOrEmpty(field)[0]
  {
  }
}
