/**
 * The `PantryInput` component: the text box that feeds the pantry, the fixed
 * list of dietary preferences shown as checkboxes, and when its two buttons
 * are disabled. The box's text is the component's own state (`newItem`).
 */
module PantryInputComponent {
  import opened Common
  import opened Text
  import PantryLists

  /** `allPreferences`, in display order. */
  const AllPreferences: seq<string> := ["Vegetarian", "Vegan", "Gluten-Free", "Dairy-Free", "Keto", "Low-Carb"]

  /** The preference vocabulary has six distinct entries. */
  lemma AllPreferencesDistinct()
    ensures |AllPreferences| == 6 && NoDuplicates(AllPreferences)
  {
  }

  /** `disabled={!newItem}`: only the empty string disables "Add Item", so a
      box holding only whitespace leaves it enabled. */
  function AddButtonDisabled(newItem: string): (disabled: bool)
    ensures disabled <==> |newItem| == 0
  {
    newItem == ""
  }

  /** `disabled={isLoading || pantryItems.length === 0}`. */
  function GenerateButtonDisabled(isLoading: bool, pantryItems: seq<string>): (disabled: bool)
    ensures !disabled <==> !isLoading && pantryItems != []
  {
    isLoading || |pantryItems| == 0
  }

  /** `checked={dietaryPreferences.includes(pref)}`. */
  function PreferenceChecked(dietaryPreferences: seq<string>, pref: string): (checked: bool)
    ensures checked <==> exists k :: 0 <= k < |dietaryPreferences| && dietaryPreferences[k] == pref
  {
    pref in dietaryPreferences
  }

  /** Clicking a checkbox flips that box and no other. */
  lemma ToggleFlipsOneCheckbox(prefs: seq<string>, pref: string, other: string)
    requires other != pref
    ensures PreferenceChecked(PantryLists.TogglePreference(prefs, pref), pref) == !PreferenceChecked(prefs, pref)
    ensures PreferenceChecked(PantryLists.TogglePreference(prefs, pref), other) == PreferenceChecked(prefs, other)
  {
  }

  class PantryInput {
    /** The text in the input box. */
    var newItem: string

    constructor ()
      ensures newItem == ""
    {
      newItem := "";
    }

    /** `onChange`: the box shows what was typed. */
    method Change(value: string)
      modifies this
      ensures newItem == value
    {
      newItem := value;
    }

    /** `handleInputSubmit`. Text that is empty after trimming submits
        nothing and stays in the box; otherwise the trimmed, lower-cased text
        is handed to `onAddItem` (the result) and the box is cleared. */
    method Submit() returns (added: Option<string>)
      modifies this
      ensures AllWhitespace(old(newItem)) ==> added.None? && newItem == old(newItem)
      ensures !AllWhitespace(old(newItem)) ==>
        && added == Some(Normalize(old(newItem)))
        && IsNormalized(added.value)
        && newItem == ""
    {
      var trimmed := Trim(newItem);
      if trimmed != "" {
        added := Some(ToLower(trimmed));
        newItem := "";
      } else {
        added := None;
      }
    }
  }

  /** Whitespace-only text enables "Add Item" yet adds nothing. */
  lemma WhitespaceEnablesAddButSubmitsNothing(newItem: string)
    requires newItem != "" && AllWhitespace(newItem)
    ensures !AddButtonDisabled(newItem)
    ensures Normalize(newItem) == ""
  {
  }
}
