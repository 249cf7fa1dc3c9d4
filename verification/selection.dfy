/**
 * The numbered-menu choice used for environments, commands and pods: the
 * user types a 1-based number, and only a number in `[1, len]` picks an item.
 * Input that is not a number reaches the program as 0.
 */
module Selection {
  import opened Wrappers

  /** The item numbered `choice` on a 1-based list, if there is one. */
  function Pick<T>(items: seq<T>, choice: int): (r: Option<T>)
    ensures r.Some? <==> 1 <= choice <= |items|
    ensures r.Some? ==> r.value == items[choice - 1]
  {
    if choice < 1 || choice > |items| then None else Some(items[choice - 1])
  }

  /** Every item can be picked, and only items can be: the menu covers the list exactly. */
  lemma PickCoversItems<T>(items: seq<T>, x: T)
    ensures x in items <==> exists choice :: Pick(items, choice) == Some(x)
  {
    if x in items {
      var k :| 0 <= k < |items| && items[k] == x;
      assert Pick(items, k + 1) == Some(x);
    }
  }

  /** An empty list and a non-numeric answer never pick anything. */
  lemma PickRejects<T>(items: seq<T>, choice: int)
    ensures Pick(items, 0).None?
    ensures items == [] ==> Pick(items, choice).None?
  {
  }
}
