/**
 * The create/edit screen: the ingredient and fridge-item lists edited in
 * place, the mode switch, the ordered checks of the two save handlers, which
 * ingredients are saved, whether the image is uploaded and with which content
 * type, and whether the recipe is inserted or updated. Random ids, the signed-in
 * user and the URL an upload returns are parameters; the Supabase writes are
 * described by the plan the handlers return.
 */
module CreateScreen {
  import opened Wrappers
  import opened Text
  import opened Lists
  import opened Validation
  import opened AddItemForm
  import Gemini

  /** One row of the ingredient editor. */
  datatype Ingredient = Ingredient(id: string, name: string, amount: string)

  datatype CreationMode = Select | Manual | FromImage | RecipeBook

  /** The `field` argument of `updateIngredient`. */
  datatype IngredientField = Name | Amount

  const LoginRequired: string := "You must be logged in"
  const TitleRequired: string := "Please enter a recipe title"
  const ItemRequired: string := "Please add at least one item"
  const IngredientRequired: string := "Please add at least one ingredient"
  const BookTitleRequired: string := "Please enter a book title"
  const PdfRequired: string := "Please select a PDF file"

  /** The row a fresh or reset form holds. */
  const FirstRow: Ingredient := Ingredient("1", "", "")

  // ---------------------------------------------------------------------------
  // List edits
  // ---------------------------------------------------------------------------

  /** `ingredients.filter(i => i.id !== id)`. */
  function WithoutIngredient(ingredients: seq<Ingredient>, id: string): (r: seq<Ingredient>)
    ensures forall x :: x in r ==> x.id != id
    ensures forall x :: x in ingredients && x.id != id ==> x in r
    ensures forall x :: x in r ==> x in ingredients
  {
    Filter(ingredients, (x: Ingredient) => x.id != id)
  }

  /** `fridgeItems.filter(i => i.id !== id)`. */
  function WithoutFridgeItem(items: seq<FridgeItem>, id: string): (r: seq<FridgeItem>)
    ensures forall x :: x in r ==> x.id != id
    ensures forall x :: x in items && x.id != id ==> x in r
    ensures forall x :: x in r ==> x in items
  {
    Filter(items, (x: FridgeItem) => x.id != id)
  }

  /** Removing an id keeps the other rows in their order: removal commutes with splitting the list. */
  lemma RemovalKeepsOrder(front: seq<Ingredient>, back: seq<Ingredient>, id: string)
    ensures WithoutIngredient(front + back, id) == WithoutIngredient(front, id) + WithoutIngredient(back, id)
  {
    FilterConcat(front, back, (x: Ingredient) => x.id != id);
  }

  /** Removing an id no row carries changes nothing. */
  lemma RemovingAbsentIdKeepsList(ingredients: seq<Ingredient>, id: string)
    requires forall x :: x in ingredients ==> x.id != id
    ensures WithoutIngredient(ingredients, id) == ingredients
  {
    FilterKeepsAll(ingredients, (x: Ingredient) => x.id != id);
  }

  /** `ingredients.map(i => i.id === id ? { ...i, [field]: value } : i)`. */
  function UpdatedIngredients(ingredients: seq<Ingredient>, id: string, field: IngredientField, value: string): (r: seq<Ingredient>)
    ensures |r| == |ingredients|
    ensures forall k :: 0 <= k < |r| && ingredients[k].id != id ==> r[k] == ingredients[k]
    ensures forall k :: 0 <= k < |r| && ingredients[k].id == id ==>
              r[k].id == id
              && r[k].name == (if field == Name then value else ingredients[k].name)
              && r[k].amount == (if field == Amount then value else ingredients[k].amount)
  {
    seq(|ingredients|, k requires 0 <= k < |ingredients| =>
      var row := ingredients[k];
      if row.id != id then row
      else if field == Name then row.(name := value)
      else row.(amount := value))
  }

  /** Setting a field to the value it already holds leaves every row as it was. */
  lemma UpdateWithSameValueIsIdentity(ingredients: seq<Ingredient>, id: string, field: IngredientField, value: string)
    requires forall k :: 0 <= k < |ingredients| && ingredients[k].id == id ==>
               value == (if field == Name then ingredients[k].name else ingredients[k].amount)
    ensures UpdatedIngredients(ingredients, id, field, value) == ingredients
  {
    var r := UpdatedIngredients(ingredients, id, field, value);
    assert forall k :: 0 <= k < |r| ==> r[k] == ingredients[k];
  }

  /** `extractedRecipe.ingredients.map((ing, idx) => ({ id: idx.toString(), ... }))`. */
  function RowsFromExtracted(extracted: seq<Gemini.RecipeIngredient>): (rows: seq<Ingredient>)
    ensures |rows| == |extracted|
    ensures forall k :: 0 <= k < |rows| ==> rows[k] == Ingredient(NatToString(k), extracted[k].name, extracted[k].amount)
  {
    seq(|extracted|, k requires 0 <= k < |extracted| => Ingredient(NatToString(k), extracted[k].name, extracted[k].amount))
  }

  /** Removing the id of a row whose id no other row carries removes that row and keeps the rest in order. */
  lemma RemovingUniqueIdRemovesOnlyThatRow(rows: seq<Ingredient>, k: nat)
    requires k < |rows|
    requires forall i :: 0 <= i < |rows| && i != k ==> rows[i].id != rows[k].id
    ensures WithoutIngredient(rows, rows[k].id) == rows[..k] + rows[k + 1..]
  {
    var id := rows[k].id;
    FilterDropsOne(rows, k, (x: Ingredient) => x.id != id);
  }

  /** Prefilled rows have distinct ids, so removing one by its id removes that row and no other. */
  lemma RemovingPrefilledRowRemovesOnlyIt(extracted: seq<Gemini.RecipeIngredient>, k: nat)
    requires k < |extracted|
    ensures var rows := RowsFromExtracted(extracted);
            WithoutIngredient(rows, NatToString(k)) == rows[..k] + rows[k + 1..]
  {
    var rows := RowsFromExtracted(extracted);
    forall i | 0 <= i < |rows| && i != k ensures rows[i].id != rows[k].id {
      NatToStringInjective(i, k);
    }
    RemovingUniqueIdRemovesOnlyThatRow(rows, k);
  }

  // ---------------------------------------------------------------------------
  // handleCreate
  // ---------------------------------------------------------------------------

  /** `i.name.trim() !== ''`. */
  predicate IsNamed(i: Ingredient) {
    !IsBlank(i.name)
  }

  /** The ingredients that are saved: the named ones, in their original order. */
  function ValidIngredients(ingredients: seq<Ingredient>): (r: seq<Ingredient>)
    ensures forall x :: x in r <==> x in ingredients && IsNamed(x)
    ensures |r| <= |ingredients|
  {
    Filter(ingredients, IsNamed)
  }

  /** The checks of `handleCreate`, in order. */
  function CreateChecks(loggedIn: bool, isFridgeMode: bool, title: string, fridgeItemCount: nat, ingredients: seq<Ingredient>): seq<Check> {
    [Check(loggedIn, LoginRequired)]
    + ([Check(isFridgeMode || !IsBlank(title), TitleRequired)]
    + ([Check(!isFridgeMode || fridgeItemCount != 0, ItemRequired)]
    + [Check(isFridgeMode || |ValidIngredients(ingredients)| != 0, IngredientRequired)]))
  }

  /** The early returns of `handleCreate`: the alert it shows, or nothing when it goes on to save. */
  function CreateError(loggedIn: bool, isFridgeMode: bool, title: string, fridgeItemCount: nat, ingredients: seq<Ingredient>): (r: Option<string>)
    ensures r == FirstFailure(CreateChecks(loggedIn, isFridgeMode, title, fridgeItemCount, ingredients))
  {
    var c3 := Check(isFridgeMode || |ValidIngredients(ingredients)| != 0, IngredientRequired);
    var c2 := Check(!isFridgeMode || fridgeItemCount != 0, ItemRequired);
    var c1 := Check(isFridgeMode || !IsBlank(title), TitleRequired);
    var c0 := Check(loggedIn, LoginRequired);
    FirstFailureCons(c3, []);
    FirstFailureCons(c2, [c3]);
    FirstFailureCons(c1, [c2] + [c3]);
    FirstFailureCons(c0, [c1] + ([c2] + [c3]));
    if !loggedIn then Some(LoginRequired)
    else if !isFridgeMode && IsBlank(title) then Some(TitleRequired)
    else if isFridgeMode && fridgeItemCount == 0 then Some(ItemRequired)
    else if !isFridgeMode && |ValidIngredients(ingredients)| == 0 then Some(IngredientRequired)
    else None
  }

  /** A recipe passes the checks only with a title and at least one named ingredient. */
  lemma CreatedRecipeHasTitleAndIngredient(title: string, fridgeItemCount: nat, ingredients: seq<Ingredient>)
    requires CreateError(true, false, title, fridgeItemCount, ingredients).None?
    ensures !IsBlank(title)
    ensures exists x :: x in ingredients && IsNamed(x)
  {
    var checks := CreateChecks(true, false, title, fridgeItemCount, ingredients);
    assert checks[1].passes && checks[3].passes;
    var v := ValidIngredients(ingredients);
    assert v[0] in v;
  }

  /** `image && !image.startsWith('http')`: a local file that has not been uploaded yet. */
  predicate NeedsUpload(image: Option<string>) {
    Truthy(image) && !StartsWith(image.value, "http")
  }

  /** `uri.split('.').pop()?.toLowerCase() || 'jpg'`: the extension of the uploaded file's name. */
  function UploadExtension(uri: string): (ext: string)
    ensures ext != ""
    ensures ToLower(LastSegment(uri, '.')) != "" ==> ext == ToLower(LastSegment(uri, '.'))
  {
    var ext := ToLower(LastSegment(uri, '.'));
    if ext == "" then "jpg" else ext
  }

  /** The `contentType` of the upload: PNG for a `png` extension in any case, JPEG otherwise. */
  function UploadContentType(uri: string): (contentType: string)
    ensures contentType == "image/png" || contentType == "image/jpeg"
    ensures contentType == "image/png" <==> ToLower(LastSegment(uri, '.')) == "png"
  {
    if UploadExtension(uri) == "png" then "image/png" else "image/jpeg"
  }

  /** The screen's upload and the Gemini request agree on the type of the same picture, although their default extensions differ. */
  lemma UploadTypeAgreesWithGemini(uri: string)
    ensures UploadContentType(uri) == Gemini.MimeTypeFor(uri)
  {
  }

  /** An upload to the `recipe-images` bucket: the local file, the file-name extension and the content type. */
  datatype ImageUpload = ImageUpload(localUri: string, extension: string, contentType: string)

  /** Which `user_recipes` write is made. */
  datatype SaveTarget = Insert | Update(id: string)

  /** `isEditMode && editId`: update the recipe being edited, otherwise insert a new one. */
  function SaveTargetFor(isEditMode: bool, editId: Option<string>): (t: SaveTarget)
    ensures t.Update? <==> isEditMode && Truthy(editId)
    ensures t.Update? ==> t.id == editId.value
  {
    if isEditMode && Truthy(editId) then Update(editId.value) else Insert
  }

  /** A `user_fridge` row. */
  datatype FridgeRow = FridgeRow(userId: string, name: string, quantity: string, unit: string)

  /** The `recipeData` object written to `user_recipes`. */
  datatype RecipeData = RecipeData(userId: string, title: string, instruction: string, ingredients: seq<Ingredient>, imageUrl: Option<string>)

  /** What a save handler does after its checks: nothing but an alert, or the writes it makes. */
  datatype SavePlan =
    | Rejected(message: string)
    | InsertFridgeItems(rows: seq<FridgeRow>)
    | SaveRecipe(upload: Option<ImageUpload>, target: SaveTarget, recipe: RecipeData)
    | InsertRecipeBook(userId: string, title: string, pdfUri: string, pdfName: string)

  /** `fridgeItems.map(...)`: one row per item, owned by the user. */
  function FridgeRows(userId: string, items: seq<FridgeItem>): (rows: seq<FridgeRow>)
    ensures |rows| == |items|
    ensures forall k :: 0 <= k < |rows| ==>
              rows[k] == FridgeRow(userId, items[k].name, items[k].quantity, items[k].unit)
  {
    seq(|items|, k requires 0 <= k < |items| => FridgeRow(userId, items[k].name, items[k].quantity, items[k].unit))
  }

  // ---------------------------------------------------------------------------
  // handleSaveRecipeBook
  // ---------------------------------------------------------------------------

  /** The checks of `handleSaveRecipeBook`, in order. */
  function BookChecks(loggedIn: bool, bookTitle: string, pdfUri: Option<string>, pdfName: Option<string>): seq<Check> {
    [Check(loggedIn, LoginRequired)]
    + ([Check(!IsBlank(bookTitle), BookTitleRequired)]
    + [Check(Truthy(pdfUri) && Truthy(pdfName), PdfRequired)])
  }

  /** The early returns of `handleSaveRecipeBook`. */
  function BookError(loggedIn: bool, bookTitle: string, pdfUri: Option<string>, pdfName: Option<string>): (r: Option<string>)
    ensures r == FirstFailure(BookChecks(loggedIn, bookTitle, pdfUri, pdfName))
  {
    var c2 := Check(Truthy(pdfUri) && Truthy(pdfName), PdfRequired);
    var c1 := Check(!IsBlank(bookTitle), BookTitleRequired);
    var c0 := Check(loggedIn, LoginRequired);
    FirstFailureCons(c2, []);
    FirstFailureCons(c1, [c2]);
    FirstFailureCons(c0, [c1] + [c2]);
    if !loggedIn then Some(LoginRequired)
    else if IsBlank(bookTitle) then Some(BookTitleRequired)
    else if !Truthy(pdfUri) || !Truthy(pdfName) then Some(PdfRequired)
    else None
  }

  // ---------------------------------------------------------------------------
  // The screen
  // ---------------------------------------------------------------------------

  /** The screen's scalar form fields other than `loading`. */
  datatype FormFields = FormFields(
    creationMode: CreationMode,
    title: string,
    instructions: string,
    image: Option<string>,
    bookTitle: string,
    pdfUri: Option<string>,
    pdfName: Option<string>)

  class CreateRecipeScreen {
    /** The route parameters: `mode === 'fridge'`, `mode === 'edit'`, and `id`. */
    const isFridgeMode: bool
    const isEditMode: bool
    const editId: Option<string>

    var creationMode: CreationMode
    var title: string
    var instructions: string
    var image: Option<string>
    var ingredients: seq<Ingredient>
    var loading: bool
    var bookTitle: string
    var pdfUri: Option<string>
    var pdfName: Option<string>
    var fridgeItems: seq<FridgeItem>

    function Fields(): FormFields
      reads this
    {
      FormFields(creationMode, title, instructions, image, bookTitle, pdfUri, pdfName)
    }

    /** The initial state: manual entry when editing, mode selection otherwise, one blank ingredient row. */
    constructor(isFridgeMode: bool, isEditMode: bool, editId: Option<string>)
      ensures this.isFridgeMode == isFridgeMode && this.isEditMode == isEditMode && this.editId == editId
      ensures creationMode == (if isEditMode then Manual else Select)
      ensures title == "" && instructions == "" && image == None && bookTitle == "" && pdfUri == None && pdfName == None
      ensures ingredients == [FirstRow] && fridgeItems == [] && !loading
    {
      this.isFridgeMode := isFridgeMode;
      this.isEditMode := isEditMode;
      this.editId := editId;
      creationMode := if isEditMode then Manual else Select;
      title, instructions, image := "", "", None;
      ingredients := [FirstRow];
      loading := false;
      bookTitle, pdfUri, pdfName := "", None, None;
      fridgeItems := [];
    }

    /** `addIngredient()`: one blank row with a fresh id goes to the end; nothing else changes. */
    method AddIngredient(newId: string)
      modifies this
      ensures ingredients == old(ingredients) + [Ingredient(newId, "", "")]
      ensures Fields() == old(Fields()) && fridgeItems == old(fridgeItems) && loading == old(loading)
    {
      ingredients := ingredients + [Ingredient(newId, "", "")];
    }

    /** `removeIngredient(id)`: every row with that id goes, the others stay in order. */
    method RemoveIngredient(id: string)
      modifies this
      ensures ingredients == WithoutIngredient(old(ingredients), id)
      ensures Fields() == old(Fields()) && fridgeItems == old(fridgeItems) && loading == old(loading)
    {
      ingredients := WithoutIngredient(ingredients, id);
    }

    /** `updateIngredient(id, field, value)`: the named field of the rows with that id. */
    method UpdateIngredient(id: string, field: IngredientField, value: string)
      modifies this
      ensures ingredients == UpdatedIngredients(old(ingredients), id, field, value)
      ensures Fields() == old(Fields()) && fridgeItems == old(fridgeItems) && loading == old(loading)
    {
      ingredients := UpdatedIngredients(ingredients, id, field, value);
    }

    /** `handleAddItem(item)`: the item goes to the end of the fridge list. */
    method HandleAddItem(item: FridgeItem)
      modifies this
      ensures fridgeItems == old(fridgeItems) + [item]
      ensures Fields() == old(Fields()) && ingredients == old(ingredients) && loading == old(loading)
    {
      fridgeItems := fridgeItems + [item];
    }

    /** `removeFridgeItem(id)`: every item with that id goes, the others stay in order. */
    method RemoveFridgeItem(id: string)
      modifies this
      ensures fridgeItems == WithoutFridgeItem(old(fridgeItems), id)
      ensures Fields() == old(Fields()) && ingredients == old(ingredients) && loading == old(loading)
    {
      fridgeItems := WithoutFridgeItem(fridgeItems, id);
    }

    /** `resetCreationMode()`: back to mode selection with an empty recipe and book; fridge items and `loading` are kept. */
    method ResetCreationMode()
      modifies this
      ensures Fields() == FormFields(Select, "", "", None, "", None, None)
      ensures ingredients == [FirstRow]
      ensures fridgeItems == old(fridgeItems) && loading == old(loading)
    {
      creationMode := Select;
      title := "";
      instructions := "";
      image := None;
      ingredients := [FirstRow];
      bookTitle := "";
      pdfUri := None;
      pdfName := None;
    }

    /**
     * `pickAndAnalyzeImage()` once an image was picked: the image is shown at
     * once; a successful analysis fills the recipe form from the extracted
     * recipe and switches to manual entry, a failed one changes nothing more.
     */
    method PickAndAnalyzeImage(imageUri: string, analysis: Result<Gemini.ExtractedRecipe, string>)
      modifies this
      ensures image == Some(imageUri)
      ensures analysis.Ok? ==>
                title == analysis.value.title && instructions == analysis.value.instructions
                && ingredients == RowsFromExtracted(analysis.value.ingredients) && creationMode == Manual
      ensures analysis.Err? ==>
                title == old(title) && instructions == old(instructions)
                && ingredients == old(ingredients) && creationMode == old(creationMode)
      ensures bookTitle == old(bookTitle) && pdfUri == old(pdfUri) && pdfName == old(pdfName)
      ensures fridgeItems == old(fridgeItems) && loading == old(loading)
    {
      image := Some(imageUri);
      if analysis.Ok? {
        title := analysis.value.title;
        instructions := analysis.value.instructions;
        ingredients := RowsFromExtracted(analysis.value.ingredients);
        creationMode := Manual;
      }
    }

    /**
     * `handleCreate()`: the first failed check is alerted and nothing is
     * written; otherwise the fridge items are inserted, or the recipe with its
     * named ingredients is saved, after uploading a local image. `loading` is
     * off once the save is over. The form itself is not changed.
     */
    method HandleCreate(user: Option<string>, uploadedUrl: string) returns (plan: SavePlan)
      modifies this
      ensures Fields() == old(Fields()) && ingredients == old(ingredients) && fridgeItems == old(fridgeItems)
      ensures var error := CreateError(user.Some?, isFridgeMode, title, |fridgeItems|, ingredients);
              (error.Some? <==> plan.Rejected?) && (error.Some? ==> plan.message == error.value)
      ensures plan.Rejected? ==> loading == old(loading)
      ensures !plan.Rejected? ==> !loading && user.Some?
      ensures plan.InsertFridgeItems? ==> isFridgeMode && plan.rows == FridgeRows(user.value, fridgeItems)
      ensures plan.SaveRecipe? ==> !isFridgeMode
      ensures plan.SaveRecipe? ==>
                plan.recipe == RecipeData(user.value, title, instructions, ValidIngredients(ingredients),
                                          if NeedsUpload(image) then Some(uploadedUrl) else image)
      ensures plan.SaveRecipe? ==> (plan.upload.Some? <==> NeedsUpload(image))
      ensures plan.SaveRecipe? && plan.upload.Some? ==>
                plan.upload.value == ImageUpload(image.value, UploadExtension(image.value), UploadContentType(image.value))
      ensures plan.SaveRecipe? ==> plan.target == SaveTargetFor(isEditMode, editId)
      ensures !plan.InsertRecipeBook?
    {
      if user.None? {
        return Rejected(LoginRequired);
      }
      if !isFridgeMode && IsBlank(title) {
        return Rejected(TitleRequired);
      }
      if isFridgeMode && |fridgeItems| == 0 {
        return Rejected(ItemRequired);
      }
      if !isFridgeMode && |ValidIngredients(ingredients)| == 0 {
        return Rejected(IngredientRequired);
      }
      loading := true;
      if isFridgeMode {
        plan := InsertFridgeItems(FridgeRows(user.value, fridgeItems));
      } else {
        var imageUrl := image;
        var upload := None;
        if NeedsUpload(image) {
          upload := Some(ImageUpload(image.value, UploadExtension(image.value), UploadContentType(image.value)));
          imageUrl := Some(uploadedUrl);
        }
        var recipe := RecipeData(user.value, title, instructions, ValidIngredients(ingredients), imageUrl);
        plan := SaveRecipe(upload, SaveTargetFor(isEditMode, editId), recipe);
      }
      loading := false;
    }

    /**
     * `handleSaveRecipeBook()`: the first failed check is alerted; otherwise the
     * picked PDF is uploaded and a book with the title as typed is inserted.
     */
    method HandleSaveRecipeBook(user: Option<string>) returns (plan: SavePlan)
      modifies this
      ensures Fields() == old(Fields()) && ingredients == old(ingredients) && fridgeItems == old(fridgeItems)
      ensures var error := BookError(user.Some?, bookTitle, pdfUri, pdfName);
              (error.Some? <==> plan.Rejected?) && (error.Some? ==> plan.message == error.value)
      ensures plan.Rejected? ==> loading == old(loading)
      ensures !plan.Rejected? ==>
                !loading && user.Some? && pdfUri.Some? && pdfName.Some?
                && plan == InsertRecipeBook(user.value, bookTitle, pdfUri.value, pdfName.value)
    {
      if user.None? {
        return Rejected(LoginRequired);
      }
      if IsBlank(bookTitle) {
        return Rejected(BookTitleRequired);
      }
      if !Truthy(pdfUri) || !Truthy(pdfName) {
        return Rejected(PdfRequired);
      }
      loading := true;
      plan := InsertRecipeBook(user.value, bookTitle, pdfUri.value, pdfName.value);
      loading := false;
    }
  }
}
