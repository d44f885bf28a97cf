/**
 * The three list reducers of the pantry page: the new `pantryItems` array
 * `handleAddItem` and `handleRemoveItem` compute, and the new
 * `dietaryPreferences` array `handleTogglePreference` computes. An item is a
 * string; JavaScript treats only the empty string as a falsy one.
 */
module PantryLists {
  import opened Common

  /** `item && !items.includes(item) ? [...items, item] : items`. The new item
      goes at the end, the old items keep their places, and the list grows
      exactly when the item is non-empty and new. */
  function AddItem(items: seq<string>, item: string): (r: seq<string>)
    ensures forall x :: x in r <==> x in items || (x == item && item != "")
    ensures |items| <= |r| <= |items| + 1 && r[..|items|] == items
    ensures |r| == |items| <==> (item == "" || item in items)
    ensures NoDuplicates(items) ==> NoDuplicates(r)
  {
    if item != "" && item !in items then items + [item] else items
  }

  /** `items.filter(x => x !== item)`: every occurrence of `item` goes, the
      other entries stay, each as often as before and in the same order. */
  function RemoveItem(items: seq<string>, item: string): (r: seq<string>)
    ensures item !in r
    ensures forall x :: x != item ==> (x in r <==> x in items)
    ensures forall x :: x != item ==> multiset(r)[x] == multiset(items)[x]
    ensures IsSubsequence(r, items)
  {
    Filter(items, x => x != item)
  }

  /** Removal keeps a list free of duplicates. */
  lemma RemoveItemNoDuplicates(items: seq<string>, item: string)
    requires NoDuplicates(items)
    ensures NoDuplicates(RemoveItem(items, item))
  {
    FilterNoDuplicates(items, x => x != item);
  }

  /** Removing an item that is not there changes nothing. */
  lemma RemoveAbsentItem(items: seq<string>, item: string)
    requires item !in items
    ensures RemoveItem(items, item) == items
  {
    FilterKeepsAll(items, x => x != item);
  }

  /** Removing twice is removing once. */
  lemma RemoveItemIdempotent(items: seq<string>, item: string)
    ensures RemoveItem(RemoveItem(items, item), item) == RemoveItem(items, item)
  {
    RemoveAbsentItem(RemoveItem(items, item), item);
  }

  /** Removing what was just appended gives back the list it was appended to. */
  lemma RemoveAppended(items: seq<string>, item: string)
    requires item !in items
    ensures RemoveItem(items + [item], item) == items
  {
    FilterAppend(items, [item], x => x != item);
    RemoveAbsentItem(items, item);
  }

  /** `handleTogglePreference`'s new array: drop the preference when present,
      append it when absent. Membership of that preference flips and nothing
      else changes membership. */
  function TogglePreference(prefs: seq<string>, pref: string): (r: seq<string>)
    ensures pref in r <==> pref !in prefs
    ensures forall q :: q != pref ==> (q in r <==> q in prefs)
    ensures pref !in prefs ==> r == prefs + [pref]
    ensures forall q :: q != pref ==> multiset(r)[q] == multiset(prefs)[q]
    ensures pref in prefs ==> IsSubsequence(r, prefs)
  {
    if pref in prefs then RemoveItem(prefs, pref) else prefs + [pref]
  }

  /** Toggling keeps the preference list free of duplicates. */
  lemma ToggleNoDuplicates(prefs: seq<string>, pref: string)
    requires NoDuplicates(prefs)
    ensures NoDuplicates(TogglePreference(prefs, pref))
  {
    if pref in prefs {
      RemoveItemNoDuplicates(prefs, pref);
    }
  }

  /** Ticking an unticked box and unticking it again restores the list exactly. */
  lemma ToggleTwiceRestores(prefs: seq<string>, pref: string)
    requires pref !in prefs
    ensures TogglePreference(TogglePreference(prefs, pref), pref) == prefs
  {
    RemoveAppended(prefs, pref);
  }
}
