/**
 * The add/edit fridge-item sheet: its form fields, the open effect that fills
 * or clears them, and `handleValidate`, which either sets an error message or
 * hands a finished item to the parent and closes. Random ids are parameters.
 */
module AddItemForm {
  import opened Wrappers
  import opened Text
  import opened Validation
  import MealDb

  /** A fridge entry as the sheet produces it. */
  datatype FridgeItem = FridgeItem(id: string, name: string, quantity: string, unit: string, thumbUrl: Option<string>)

  /** The unit chips, in display order. */
  const Units: seq<string> := ["pcs", "kg", "g", "L", "ml", "oz", "lb", "tbsp", "tsp", "cup"]
  const DefaultUnit: string := "pcs"

  const NameRequired: string := "Please enter a product name"
  const QuantityRequired: string := "Please enter a quantity"

  /** The checks of `handleValidate`, in order. */
  function ItemChecks(name: string, quantity: string): seq<Check> {
    [Check(!IsBlank(name), NameRequired), Check(!IsBlank(quantity), QuantityRequired)]
  }

  /**
   * The outcome of `handleValidate` on the given fields: the error it sets, or
   * the item it passes to `onAddItem` (trimmed name and quantity, the selected
   * unit, the small thumbnail of the trimmed name).
   */
  function ValidatedItem(id: string, name: string, quantity: string, unit: string): (r: Result<FridgeItem, string>)
    ensures r.Err? <==> FirstFailure(ItemChecks(name, quantity)).Some?
    ensures r.Err? ==> r.error == FirstFailure(ItemChecks(name, quantity)).value
    ensures r.Ok? ==> r.value.name == Trim(name) && r.value.name != "" && r.value.quantity == Trim(quantity) && r.value.quantity != ""
    ensures r.Ok? ==> r.value.id == id && r.value.unit == unit
    ensures r.Ok? ==> r.value.thumbUrl == Some(MealDb.IngredientThumbUrl(r.value.name, MealDb.Small))
  {
    if IsBlank(name) then Err(NameRequired)
    else if IsBlank(quantity) then Err(QuantityRequired)
    else
      var trimmedName := Trim(name);
      Ok(FridgeItem(id, trimmedName, Trim(quantity), unit, Some(MealDb.IngredientThumbUrl(trimmedName, MealDb.Small))))
  }

  /** A blank name is reported before anything is said about the quantity. */
  lemma NameCheckedFirst(id: string, name: string, quantity: string, unit: string)
    requires IsBlank(name)
    ensures ValidatedItem(id, name, quantity, unit) == Err(NameRequired)
  {
    FirstFailureIsEarliest(ItemChecks(name, quantity), 0);
  }

  /** Validating an emitted item's own fields again gives back the same item: its fields are already trimmed and filled. */
  lemma ValidatedItemIsStable(id: string, name: string, quantity: string, unit: string)
    requires ValidatedItem(id, name, quantity, unit).Ok?
    ensures ValidatedItem(id, ValidatedItem(id, name, quantity, unit).value.name,
                          ValidatedItem(id, name, quantity, unit).value.quantity, unit)
            == ValidatedItem(id, name, quantity, unit)
  {
    TrimIdempotent(name);
    TrimIdempotent(quantity);
  }

  /** The sheet's state. */
  class AddItemModal {
    var name: string
    var quantity: string
    var unit: string
    var error: Option<string>

    /** The fields start empty, with the default unit and no error. */
    constructor()
      ensures name == "" && quantity == "" && unit == DefaultUnit && error == None
    {
      name, quantity, unit, error := "", "", DefaultUnit, None;
    }

    /** The open effect: copy the item being edited, or clear the form; the error is cleared either way. */
    method Open(initialItem: Option<FridgeItem>)
      modifies this
      ensures initialItem.Some? ==>
                name == initialItem.value.name && quantity == initialItem.value.quantity && unit == initialItem.value.unit
      ensures initialItem.None? ==> name == "" && quantity == "" && unit == DefaultUnit
      ensures error == None
    {
      if initialItem.Some? {
        name, quantity, unit := initialItem.value.name, initialItem.value.quantity, initialItem.value.unit;
      } else {
        name, quantity, unit := "", "", DefaultUnit;
      }
      error := None;
    }

    /** Typing in the name field stores the text and clears the error. */
    method ChangeName(text: string)
      modifies this
      ensures name == text && error == None
      ensures quantity == old(quantity) && unit == old(unit)
    {
      name, error := text, None;
    }

    /** Typing in the quantity field stores the text and clears the error. */
    method ChangeQuantity(text: string)
      modifies this
      ensures quantity == text && error == None
      ensures name == old(name) && unit == old(unit)
    {
      quantity, error := text, None;
    }

    /** Pressing the `i`-th unit chip; chips offer only the listed units. */
    method SelectUnit(i: nat)
      requires i < |Units|
      modifies this
      ensures unit == Units[i] && unit in Units
      ensures name == old(name) && quantity == old(quantity) && error == old(error)
    {
      unit := Units[i];
    }

    /**
     * `handleValidate()`: on failure only the error changes and nothing is
     * emitted; on success the item is returned for `onAddItem` followed by
     * `onClose`, and the fields are left as they were.
     */
    method HandleValidate(newId: string) returns (added: Option<FridgeItem>)
      modifies this
      ensures name == old(name) && quantity == old(quantity) && unit == old(unit)
      ensures ValidatedItem(newId, old(name), old(quantity), old(unit)).Err? ==>
                added == None && error == Some(ValidatedItem(newId, old(name), old(quantity), old(unit)).error)
      ensures ValidatedItem(newId, old(name), old(quantity), old(unit)).Ok? ==>
                added == Some(ValidatedItem(newId, old(name), old(quantity), old(unit)).value) && error == old(error)
    {
      if IsBlank(name) {
        error := Some(NameRequired);
        return None;
      }
      if IsBlank(quantity) {
        error := Some(QuantityRequired);
        return None;
      }
      var trimmedName := Trim(name);
      added := Some(FridgeItem(newId, trimmedName, Trim(quantity), unit, Some(MealDb.IngredientThumbUrl(trimmedName, MealDb.Small))));
    }
  }
}
