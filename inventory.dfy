/**
 * The inventory handlers: creating an item (logged as its initial restock),
 * adjusting an item (quantity by a logged amount, plus plain field updates),
 * the item view with its low-stock flag, and the filtered item list.
 */
module Inventory {
  import opened Common
  import opened Tables
  import opened Stock
  import Validators
  import Store

  /** The create request; `minQuantity` already holds the default of 5 when none was sent. */
  datatype CreateArgs = CreateArgs(name: Option<string>, category: Option<string>, quantity: Option<int>,
                                   minQuantity: int, unitCost: Option<int>,
                                   description: Option<string>, supplier: Option<string>)

  /** The update request: every field is optional. */
  datatype UpdateArgs = UpdateArgs(adjustment: Option<int>, minQuantity: Option<int>, unitCost: Option<int>,
                                   description: Option<string>, supplier: Option<string>)

  /** An item as the handlers return it. */
  datatype ItemView = ItemView(id: int, name: string, category: string, quantity: int, minQuantity: int,
                               unitCost: Option<int>, lastRestocked: int, lowStock: bool,
                               description: Option<string>, supplier: Option<string>)

  const DefaultMinQuantity := 5
  const InitialNote := "Initial stock"
  const AdjustmentNote := "Manual adjustment by user"

  /** Technicians and admins manage the inventory. */
  predicate MayManage(role: Role)
  {
    role == TechnicianRole || role == AdminRole
  }

  predicate NameTaken(items: map<int, Item>, name: string)
  {
    exists k :: k in items && items[k].name == name
  }

  /** The item a valid create request makes; empty description and supplier are dropped. */
  function NewItem(args: CreateArgs, now: int): Item
    requires args.name.Some? && args.category.Some? && args.quantity.Some?
  {
    Item(args.name.value, args.category.value, args.quantity.value, args.minQuantity, args.unitCost,
         NonEmpty(args.description), NonEmpty(args.supplier), now)
  }

  /**
   * Creates an item: technician or admin only, the name must be new; the item's
   * initial quantity is logged as a restock.
   */
  method Create(db: Store.Db, actor: Actor, args: CreateArgs, now: int) returns (r: Outcome<int>)
    requires db.Valid()
    modifies db`items, db`itemChanges, db`nextId
    ensures db.Valid()
    ensures !MayManage(actor.role) ==> r == Fail(Forbidden)
    ensures MayManage(actor.role) && (args.name.None? || args.category.None? || args.quantity.None?)
            ==> r == Fail(BadRequest)
    ensures (MayManage(actor.role) && args.name.Some? && args.category.Some? && args.quantity.Some?
             && NameTaken(old(db.items), args.name.value)) ==> r == Fail(Conflict)
    ensures r.Ok? <==> MayManage(actor.role) && args.name.Some? && args.category.Some? && args.quantity.Some?
                       && !NameTaken(old(db.items), args.name.value)
    ensures r.Ok? ==> r.value == old(db.nextId) && db.nextId == old(db.nextId) + 1
                      && db.items == old(db.items)[r.value := NewItem(args, now)]
                      && db.itemChanges == old(db.itemChanges)
                                           + [ItemChange(r.value, actor.userId, Restock, args.quantity.value, InitialNote)]
    ensures r.Fail? ==> db.items == old(db.items) && db.itemChanges == old(db.itemChanges)
                        && db.nextId == old(db.nextId)
  {
    if !MayManage(actor.role) {
      return Fail(Forbidden);
    }
    if args.name.None? || args.category.None? || args.quantity.None? {
      return Fail(BadRequest);
    }
    if NameTaken(db.items, args.name.value) {
      return Fail(Conflict);
    }
    var id := db.nextId;
    var item := NewItem(args, now);
    var change := ItemChange(id, actor.userId, Restock, args.quantity.value, InitialNote);
    CreateKeepsConsistent(db.items, db.itemChanges, id, item, change);
    db.items := db.items[id := item];
    db.itemChanges := db.itemChanges + [change];
    db.nextId := id + 1;
    r := Ok(id);
  }

  /** The request changes something: a non-zero adjustment or any other field sent. */
  predicate Touches(p: UpdateArgs)
  {
    (p.adjustment.Some? && p.adjustment.value != 0) || p.minQuantity.Some? || p.unitCost.Some?
    || p.description.Some? || p.supplier.Some?
  }

  /** The change record an adjustment logs: a restock when positive, otherwise an adjustment. */
  function AdjustmentRecord(id: int, userId: int, adj: int): ItemChange
  {
    ItemChange(id, userId, if adj > 0 then Restock else Adjustment, adj, AdjustmentNote)
  }

  /**
   * Updates item `id`. A non-zero adjustment moves the quantity by exactly that
   * amount (with no lower bound) and logs it; a positive one also stamps the
   * restock date. The other fields are replaced when sent (an empty description
   * or supplier clears it). A request that changes nothing is refused.
   */
  method Update(db: Store.Db, actor: Actor, id: int, p: UpdateArgs, now: int) returns (r: Outcome<Item>)
    requires db.Valid()
    modifies db`items, db`itemChanges
    ensures db.Valid()
    ensures !MayManage(actor.role) ==> r == Fail(Forbidden)
    ensures MayManage(actor.role) && id !in old(db.items) ==> r == Fail(NotFound)
    ensures MayManage(actor.role) && id in old(db.items) ==> (r.Ok? <==> Touches(p)) && (r.Fail? ==> r == Fail(BadRequest))
    ensures r.Ok? ==>
              id in old(db.items) && db.items == old(db.items)[id := r.value] &&
              var item, adj := old(db.items)[id], GetOr(p.adjustment, 0);
              r.value.quantity == item.quantity + adj
              && r.value.lastRestocked == (if adj > 0 then now else item.lastRestocked)
              && r.value.minQuantity == GetOr(p.minQuantity, item.minQuantity)
              && r.value.unitCost == (if p.unitCost.Some? then p.unitCost else item.unitCost)
              && r.value.description == (if p.description.Some? then NonEmpty(p.description) else item.description)
              && r.value.supplier == (if p.supplier.Some? then NonEmpty(p.supplier) else item.supplier)
              && r.value.name == item.name && r.value.category == item.category
              && db.itemChanges == old(db.itemChanges)
                                   + (if adj != 0 then [AdjustmentRecord(id, actor.userId, adj)] else [])
    ensures r.Fail? ==> db.items == old(db.items) && db.itemChanges == old(db.itemChanges)
  {
    if !MayManage(actor.role) {
      return Fail(Forbidden);
    }
    if id !in db.items {
      return Fail(NotFound);
    }
    var item := db.items[id];
    var adj := GetOr(p.adjustment, 0);
    // A zero or missing adjustment leaves the quantity and the log alone.
    var c := AdjustmentRecord(id, actor.userId, adj);
    var log := if adj != 0 then db.itemChanges + [c] else db.itemChanges;
    item := item.(quantity := item.quantity + adj,
                  lastRestocked := if adj > 0 then now else item.lastRestocked,
                  minQuantity := GetOr(p.minQuantity, item.minQuantity),
                  unitCost := if p.unitCost.Some? then p.unitCost else item.unitCost,
                  description := if p.description.Some? then NonEmpty(p.description) else item.description,
                  supplier := if p.supplier.Some? then NonEmpty(p.supplier) else item.supplier);
    if !Touches(p) {
      return Fail(BadRequest);
    }
    if adj != 0 {
      AdjustKeepsConsistent(db.items, db.itemChanges, c, item);
    }
    db.CommitItem(id, item, log);
    r := Ok(item);
  }

  /** The item as returned; the low-stock flag is the quantity at or below the minimum. */
  function View(id: int, item: Item): (v: ItemView)
    ensures v.id == id && v.quantity == item.quantity && v.minQuantity == item.minQuantity
    ensures v.lowStock <==> v.quantity <= v.minQuantity
  {
    ItemView(id, item.name, item.category, item.quantity, item.minQuantity, item.unitCost,
             item.lastRestocked, LowStock(item), item.description, item.supplier)
  }

  /** The list's low-stock filter is on: the parameter, lower-cased, reads "true". */
  predicate LowFilterOn(lowStock: Option<string>)
  {
    lowStock.Some? && lowStock.value != "" && Validators.Lower(lowStock.value) == "true"
  }

  /** An item passes the list filters: the category when one is given, low stock when asked for. */
  predicate Listed(item: Item, category: Option<string>, lowStock: Option<string>)
  {
    (NonEmpty(category).Some? ==> item.category == category.value)
    && (LowFilterOn(lowStock) ==> LowStock(item))
  }

  /** The views of the items of `items` below `next` that pass the filters, in order of id. */
  method CollectListed(items: map<int, Item>, next: int, category: Option<string>, lowStock: Option<string>)
    returns (rows: seq<ItemView>)
    requires next >= 1 && Store.IdsBelow(items, next)
    ensures forall y :: y in items && Listed(items[y], category, lowStock) ==>
              exists k :: 0 <= k < |rows| && rows[k].id == y
    ensures forall k :: 0 <= k < |rows| ==>
              rows[k].id in items && Listed(items[rows[k].id], category, lowStock)
              && rows[k] == View(rows[k].id, items[rows[k].id])
    ensures forall k, l :: 0 <= k < l < |rows| ==> rows[k].id < rows[l].id
  {
    ghost var ids := set id | id in items && Listed(items[id], category, lowStock);
    ghost var keys: seq<int> := [];
    rows := [];
    var i := 1;
    while i < next
      invariant 1 <= i <= next
      invariant forall k :: 0 <= k < |rows| ==>
                  rows[k].id in ids && rows[k].id < i && rows[k] == View(rows[k].id, items[rows[k].id])
      invariant |keys| == |rows| && forall k :: 0 <= k < |rows| ==> keys[k] == rows[k].id
      invariant forall y :: y in ids && y < i ==> y in keys
      invariant forall k, l :: 0 <= k < l < |rows| ==> rows[k].id < rows[l].id
    {
      if i in items && Listed(items[i], category, lowStock) {
        rows := rows + [View(i, items[i])];
        keys := keys + [i];
      }
      i := i + 1;
    }
    forall y | y in items && Listed(items[y], category, lowStock)
      ensures exists k :: 0 <= k < |rows| && rows[k].id == y
    {
      assert y in ids && y < next;
      var k :| 0 <= k < |keys| && keys[k] == y;
      assert rows[k].id == y;
    }
  }

  /**
   * Lists the items that pass the filters, each exactly once. The rows come in
   * order of id; the handler orders them by name, which is not modelled.
   */
  method List(db: Store.Db, actor: Actor, category: Option<string>, lowStock: Option<string>)
    returns (r: Outcome<seq<ItemView>>)
    requires db.Valid()
    ensures !MayManage(actor.role) ==> r == Fail(Forbidden)
    ensures MayManage(actor.role) ==> r.Ok?
    ensures r.Ok? ==>
              forall id :: id in db.items ==>
                (Listed(db.items[id], category, lowStock) <==> exists k :: 0 <= k < |r.value| && r.value[k].id == id)
    ensures r.Ok? ==> forall k :: 0 <= k < |r.value| ==>
                        r.value[k].id in db.items && r.value[k] == View(r.value[k].id, db.items[r.value[k].id])
    ensures r.Ok? && LowFilterOn(lowStock) ==> forall k :: 0 <= k < |r.value| ==> r.value[k].lowStock
    ensures r.Ok? ==> forall k, l :: 0 <= k < l < |r.value| ==> r.value[k].id < r.value[l].id
  {
    if !MayManage(actor.role) {
      return Fail(Forbidden);
    }
    assert db.PeopleValid() && db.StockValid();
    var rows := CollectListed(db.items, db.nextId, category, lowStock);
    r := Ok(rows);
  }
}
