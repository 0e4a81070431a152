/**
 * The inventory change log: every change to an item's quantity is logged with
 * the amount it changed by, so an item's quantity is the sum of its log.
 */
module Stock {
  import opened Tables

  /** An item is low on stock when its quantity is at or below its minimum. */
  predicate LowStock(item: Item)
  {
    item.quantity <= item.minQuantity
  }

  /** The sum of the quantity changes logged for item `id`, oldest first. */
  function Logged(changes: seq<ItemChange>, id: int): int
  {
    if changes == [] then 0
    else (if changes[0].itemId == id then changes[0].quantityChange else 0)
         + Logged(changes[1..], id)
  }

  /** Every change names an existing item, and every item's quantity is the sum of its changes. */
  ghost predicate Consistent(items: map<int, Item>, changes: seq<ItemChange>)
  {
    && (forall i :: 0 <= i < |changes| ==> changes[i].itemId in items)
    && (forall id :: id in items ==> items[id].quantity == Logged(changes, id))
  }

  /** Logging one more change adds its amount to its own item's sum and to no other. */
  lemma {:induction false} LoggedAppend(changes: seq<ItemChange>, c: ItemChange, id: int)
    ensures Logged(changes + [c], id)
            == Logged(changes, id) + (if c.itemId == id then c.quantityChange else 0)
  {
    if changes == [] {
      assert changes + [c] == [c];
      assert [c][1..] == [];
    } else {
      assert (changes + [c])[0] == changes[0];
      assert (changes + [c])[1..] == changes[1..] + [c];
      LoggedAppend(changes[1..], c, id);
    }
  }

  /** An item no change names has an empty log. */
  lemma {:induction false} LoggedUnseen(changes: seq<ItemChange>, id: int)
    requires forall i :: 0 <= i < |changes| ==> changes[i].itemId != id
    ensures Logged(changes, id) == 0
  {
    if changes != [] {
      assert changes[0].itemId != id;
      LoggedUnseen(changes[1..], id);
    }
  }

  /**
   * Creating item `id` and logging its initial quantity as one change keeps the
   * log consistent with the quantities.
   */
  lemma CreateKeepsConsistent(items: map<int, Item>, changes: seq<ItemChange>, id: int,
                              item: Item, c: ItemChange)
    requires Consistent(items, changes) && id !in items
    requires c.itemId == id && c.quantityChange == item.quantity
    ensures Consistent(items[id := item], changes + [c])
  {
    LoggedUnseen(changes, id);
    forall k | k in items[id := item]
      ensures Logged(changes + [c], k)
              == Logged(changes, k) + (if c.itemId == k then c.quantityChange else 0)
    {
      LoggedAppend(changes, c, k);
    }
  }

  /** Changing an item's quantity by the amount of one logged change keeps the log consistent. */
  lemma AdjustKeepsConsistent(items: map<int, Item>, changes: seq<ItemChange>, c: ItemChange,
                              item: Item)
    requires Consistent(items, changes) && c.itemId in items
    requires item.quantity == items[c.itemId].quantity + c.quantityChange
    ensures Consistent(items[c.itemId := item], changes + [c])
  {
    forall k | k in items
      ensures Logged(changes + [c], k)
              == Logged(changes, k) + (if c.itemId == k then c.quantityChange else 0)
    {
      LoggedAppend(changes, c, k);
    }
  }
}
