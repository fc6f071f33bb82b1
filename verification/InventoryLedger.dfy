/** Stock and orders together (orders.service.ts, products.service.ts). Each operation is one serial
    transaction; a rejected or rolled-back one changes nothing. Saving an order entity writes back the
    lines it was loaded with, because the relation cascades. */
module InventoryLedger {
  import opened Options
  import opened StockKeys
  import opened InventoryCounts
  import opened OrderStatuses
  import opened Sequences

  /** Stock rows that can be deducted: products that track inventory, variant rows and pools. */
  type Levels = map<Key, int>

  // ---------- Guarded stock operations ----------

  class StockRoom {
    var levels: Levels

    constructor (levels: Levels)
      ensures this.levels == levels
    {
      this.levels := levels;
    }

    /** `decrementStock`, `decrementGroupStock`, `decrementVariantStock`: no row, nothing to do; otherwise guarded. */
    method Decrement(key: Key, quantity: int) returns (ok: bool)
      modifies this
      ensures ok <==> quantity <= 0 || key !in old(levels) || old(levels)[key] >= quantity
      ensures levels == if ok && quantity > 0 && key in old(levels)
        then old(levels)[key := old(levels)[key] - quantity] else old(levels)
    {
      if quantity <= 0 || key !in levels { return true; }
      if levels[key] < quantity { return false; }
      levels := levels[key := levels[key] - quantity];
      return true;
    }

    method Increment(key: Key, quantity: int)
      modifies this
      ensures levels == if key in old(levels) then old(levels)[key := old(levels)[key] + quantity] else old(levels)
    {
      if key in levels { levels := levels[key := levels[key] + quantity]; }
    }

    /** The parallel updates, in any order. Success does not depend on the order. */
    method DeductInventory(counts: Counts) returns (ok: bool)
      modifies this
      ensures ok <==> Enough(old(levels), counts)
      ensures ok ==> levels == Less(old(levels), counts)
    {
      var rest := counts.Keys;
      ghost var before := levels;
      while rest != {}
        invariant rest <= counts.Keys
        invariant levels == map k <- before :: if k in rest then before[k] else before[k] - At(counts, k)
        invariant forall k | k in counts && k !in rest && k in before :: counts[k] <= before[k] || counts[k] == 0
      {
        var key :| key in rest;
        var done := Decrement(key, counts[key]);
        if !done { return false; }
        rest := rest - {key};
      }
      return true;
    }

    method RestoreInventory(counts: Counts)
      modifies this
      ensures levels == More(old(levels), counts)
    {
      var rest := counts.Keys;
      ghost var before := levels;
      while rest != {}
        invariant rest <= counts.Keys
        invariant levels == map k <- before :: if k in rest then before[k] else before[k] + At(counts, k)
      {
        var key :| key in rest;
        if counts[key] > 0 { Increment(key, counts[key]); }
        rest := rest - {key};
      }
    }
  }

  function Less(levels: Levels, counts: Counts): Levels { map k <- levels :: levels[k] - At(counts, k) }

  function More(levels: Levels, counts: Counts): Levels { map k <- levels :: levels[k] + At(counts, k) }

  predicate Enough(levels: Levels, counts: Counts) {
    forall k <- counts :: counts[k] > 0 && k in levels ==> counts[k] <= levels[k]
  }

  predicate NonNegative(levels: Levels) { forall k <- levels :: levels[k] >= 0 }

  // ---------- Validation ----------

  /** Some loaded product sits in the pool at product level. */
  predicate PoolKnown(groupId: nat, invMap: Catalog) {
    exists p <- invMap :: invMap[p].pool.Some? && invMap[p].pool.value.groupId == groupId
  }

  /** What `validateInventoryCounts` finds available for a key in what the request loaded, or none when it
      does not check it. A loaded product in a pool has stock 0. */
  function Available(key: Key, levels: Levels, invMap: Catalog): Option<int> {
    match key
    case GroupKey(g) => Some(if PoolKnown(g, invMap) && key in levels then levels[key] else 0)
    case VariantKey(p, name, value) =>
      Some(if p in invMap && Attribute(name, value) in invMap[p].variantStocks && key in levels then levels[key] else 0)
    case ProductKey(p) =>
      if p !in invMap || !invMap[p].trackInventory then None
      else Some(if invMap[p].pool.None? && key in levels then levels[key] else 0)
  }

  predicate Accepts(levels: Levels, invMap: Catalog, counts: Counts) {
    forall k <- counts :: counts[k] > 0 && Available(k, levels, invMap).Some? ==>
        counts[k] <= Available(k, levels, invMap).value
  }

  method ValidateInventoryCounts(counts: Counts, levels: Levels, invMap: Catalog) returns (ok: bool)
    ensures ok <==> Accepts(levels, invMap, counts)
  {
    var rest := counts.Keys;
    while rest != {}
      invariant rest <= counts.Keys
      invariant forall k | k in counts && k !in rest :: counts[k] > 0 && Available(k, levels, invMap).Some? ==>
                  counts[k] <= Available(k, levels, invMap).value
    {
      var key :| key in rest;
      if counts[key] > 0 {
        var available := Available(key, levels, invMap);
        if available.Some? && available.value < counts[key] { return false; }
      }
      rest := rest - {key};
    }
    return true;
  }

  // ---------- Orders ----------

  /** `locked`: an electronic invoice is accepted or pending. */
  datatype Order = Order(items: seq<Item>, extras: nat, status: OrderStatus, locked: bool)

  datatype Ledger = Ledger(levels: Levels, orders: seq<Order>)

  predicate IsSpace(c: char) { c == ' ' || c == '\t' || c == '\n' || c == '\r' }

  function TrimLeft(s: string): string { if s != "" && IsSpace(s[0]) then TrimLeft(s[1..]) else s }

  function TrimRight(s: string): string { if s != "" && IsSpace(s[|s| - 1]) then TrimRight(s[..|s| - 1]) else s }

  function Trim(s: string): string { TrimRight(TrimLeft(s)) }

  /** Creation drops attributes with a blank value; every write trims. */
  function StoredAttributes(attributes: seq<Attribute>, dropBlank: bool): seq<Attribute> {
    if attributes == [] then []
    else
      var a := attributes[|attributes| - 1];
      StoredAttributes(attributes[..|attributes| - 1], dropBlank) + StoredAttribute(a, dropBlank)
  }

  function StoredAttribute(a: Attribute, dropBlank: bool): seq<Attribute> {
    if dropBlank && Trim(a.value) == "" then [] else [Attribute(Trim(a.name), Trim(a.value))]
  }

  function Stored(items: seq<Item>, dropBlank: bool): (r: seq<Item>)
    ensures |r| == |items|
  {
    if items == [] then []
    else
      var i := items[|items| - 1];
      Stored(items[..|items| - 1], dropBlank) + [Item(i.productId, StoredAttributes(i.attributes, dropBlank), None)]
  }

  /** Attributes as the front ends send them: trimmed and not blank. */
  predicate Clean(items: seq<Item>) {
    forall i :: 0 <= i < |items| ==> CleanAttributes(items[i].attributes)
  }

  predicate CleanAttributes(attributes: seq<Attribute>) {
    forall i :: 0 <= i < |attributes| ==> CleanAttribute(attributes[i])
  }

  predicate CleanAttribute(a: Attribute) { Trim(a.name) == a.name && Trim(a.value) == a.value && a.value != "" }

  // ---------- Operations as functions ----------

  ghost function Deducted(levels: Levels, items: seq<Item>, catalog: Catalog): Levels {
    map k <- levels :: levels[k] - Count(items, catalog, k)
  }

  ghost function Restored(levels: Levels, items: seq<Item>, catalog: Catalog): Levels {
    map k <- levels :: levels[k] + Count(items, catalog, k)
  }

  /** Validation of the counts of `items` against the stock read before the transaction. */
  ghost predicate Valid(levels: Levels, items: seq<Item>, catalog: Catalog) {
    var invMap := Load(catalog, Ids(items));
    forall k :: Count(items, catalog, k) > 0 && Available(k, levels, invMap).Some? ==>
      Count(items, catalog, k) <= Available(k, levels, invMap).value
  }

  ghost predicate Sufficient(levels: Levels, items: seq<Item>, catalog: Catalog) {
    forall k <- levels :: Count(items, catalog, k) > 0 ==> Count(items, catalog, k) <= levels[k]
  }

  ghost function Create(l: Ledger, items: seq<Item>, extras: nat, catalog: Catalog): Ledger {
    if items == [] && extras == 0 then l
    else if !Valid(l.levels, items, catalog) || !Sufficient(l.levels, items, catalog) then l
    else Ledger(Deducted(l.levels, items, catalog), l.orders + [Order(Stored(items, true), extras, Waiting, false)])
  }

  predicate Editable(l: Ledger, id: nat) {
    id < |l.orders| && !l.orders[id].locked && Active(l.orders[id].status)
  }

  ghost function Append(l: Ledger, id: nat, items: seq<Item>, extras: nat, catalog: Catalog): Ledger {
    if (items == [] && extras == 0) || !Editable(l, id) then l
    else if !Valid(l.levels, items, catalog) || !Sufficient(l.levels, items, catalog) then l
    else
      var o := l.orders[id];
      Ledger(Deducted(l.levels, items, catalog),
             l.orders[id := o.(items := o.items + Stored(items, false), extras := o.extras + extras,
                                       status := Waiting)])
  }

  /** Cancellation with the lines read before the transaction; the status is checked again under the lock. */
  ghost function CancelWith(l: Ledger, id: nat, force: bool, read: seq<Item>, catalog: Catalog): Ledger {
    if id >= |l.orders| || l.orders[id].status == Canceled || (l.orders[id].status == Completed && !force) then l
    else
      Ledger(Restored(l.levels, read, catalog),
             l.orders[id := l.orders[id].(items := [], extras := 0, status := Canceled)])
  }

  ghost function Cancel(l: Ledger, id: nat, force: bool, catalog: Catalog): Ledger {
    if id >= |l.orders| then l else CancelWith(l, id, force, l.orders[id].items, catalog)
  }

  /** An order that is past cooking goes back to it: the entity, loaded before its lines were deleted, is
      saved, and its lines come back. */
  function ComeBack(o: Order): seq<Item> { if o.status == Ready then o.items else [] }

  /** Validated against the stock before the old lines are given back. */
  ghost function Replace(l: Ledger, id: nat, items: seq<Item>, extras: nat, baseItemCount: Option<int>,
      catalog: Catalog): Ledger {
    if !Editable(l, id) then l
    else
      var o := l.orders[id];
      if baseItemCount.Some? && baseItemCount.value != |o.items| then l
      else if items == [] && extras == 0 && o.extras == 0 then Cancel(l, id, false, catalog)
      else
        var restored := Restored(l.levels, o.items, catalog);
        if (items != [] && !Valid(l.levels, items, catalog)) || !Sufficient(restored, items, catalog) then l
        else
          Ledger(Deducted(restored, items, catalog),
                 l.orders[id := o.(items := ComeBack(o) + Stored(items, false), extras := o.extras + extras,
                     status := Waiting)])
  }

  /** Positions of the lines of a product, in id order. */
  function LinesOf(items: seq<Item>, productId: nat): seq<nat> {
    Positions(items, (i: Item) => i.productId == productId)
  }

  /** The lines a removal deletes: one unit or all units of a product. */
  function ChosenLines(items: seq<Item>, productId: nat, unitIndex: Option<int>): Option<seq<nat>> {
    OneOrAll(LinesOf(items, productId), unitIndex)
  }

  ghost function Remove(l: Ledger, id: nat, productId: nat, unitIndex: Option<int>, catalog: Catalog): Ledger {
    if !Editable(l, id) || ChosenLines(l.orders[id].items, productId, unitIndex).None? then l
    else
      var o := l.orders[id];
      var chosen := ChosenLines(o.items, productId, unitIndex).value;
      if |o.items| - |chosen| <= 0 && o.extras == 0 then Cancel(l, id, false, catalog)
      else
        Ledger(Restored(l.levels, Pick(o.items, chosen, false), catalog),
               l.orders[id := o.(items := if o.status == Ready then o.items else Pick(o.items, chosen, true),
                                 status := Waiting)])
  }

  /** What a request has to fulfil to be answered with success. */
  ghost predicate Affordable(levels: Levels, items: seq<Item>, catalog: Catalog) {
    Valid(levels, items, catalog) && Sufficient(levels, items, catalog)
  }

  ghost predicate Replaceable(l: Ledger, id: nat, items: seq<Item>, extras: nat, baseItemCount: Option<int>,
      catalog: Catalog)
  {
    && Editable(l, id) && (baseItemCount.Some? ==> baseItemCount.value == |l.orders[id].items|)
    && (|| (items == [] && extras == 0 && l.orders[id].extras == 0)
        || (&& (items == [] || Valid(l.levels, items, catalog))
            && Sufficient(Restored(l.levels, l.orders[id].items, catalog), items, catalog)))
  }

  predicate Cancelable(l: Ledger, id: nat, force: bool) {
    id < |l.orders| && (l.orders[id].status == Completed ==> force)
  }

  datatype Operation =
    | CreateOp(items: seq<Item>, extras: nat)
    | AppendOp(id: nat, items: seq<Item>, extras: nat)
    | ReplaceOp(id: nat, items: seq<Item>, extras: nat, baseItemCount: Option<int>)
    | RemoveOp(id: nat, productId: nat, unitIndex: Option<int>)
    | CancelOp(id: nat, force: bool)
    | AdvanceOp(id: nat, status: OrderStatus)
    | LockOp(id: nat, locked: bool)
    | SaveOp(id: nat, copy: Order)

  /** What a version of an order may look like: canceled orders have no lines. */
  predicate IsVersion(o: Order) { o.status == Canceled ==> o.items == [] && o.extras == 0 }

  ghost function Apply(l: Ledger, op: Operation, catalog: Catalog): Ledger {
    match op
    case CreateOp(items, extras) => Create(l, items, extras, catalog)
    case AppendOp(id, items, extras) => Append(l, id, items, extras, catalog)
    case ReplaceOp(id, items, extras, base) => Replace(l, id, items, extras, base, catalog)
    case RemoveOp(id, productId, unitIndex) => Remove(l, id, productId, unitIndex, catalog)
    case CancelOp(id, force) => Cancel(l, id, force, catalog)
    case AdvanceOp(id, status) =>
      if id < |l.orders| && Active(l.orders[id].status) && status != Canceled
      then l.(orders := l.orders[id := l.orders[id].(status := status)]) else l
    case LockOp(id, locked) =>
      if id < |l.orders| then l.(orders := l.orders[id := l.orders[id].(locked := locked)]) else l
    case SaveOp(id, copy) =>
      // a call that waited for the invoice service saves the version of the order that it read before
      if id < |l.orders| && IsVersion(copy) then l.(orders := l.orders[id := copy]) else l
  }

  ghost function ApplyAll(l: Ledger, ops: seq<Operation>, catalog: Catalog): Ledger {
    if ops == [] then l else Apply(ApplyAll(l, ops[..|ops| - 1], catalog), ops[|ops| - 1], catalog)
  }

  // ---------- The service ----------

  class OrdersService {
    const catalog: Catalog
    const stock: StockRoom
    var orders: seq<Order>

    constructor (catalog: Catalog, stock: StockRoom)
      ensures this.catalog == catalog && this.stock == stock && orders == []
    {
      this.catalog := catalog;
      this.stock := stock;
      orders := [];
    }

    ghost function State(): Ledger reads this, stock { Ledger(stock.levels, orders) }

    method CreateOrder(items: seq<Item>, extras: nat) returns (ok: bool)
      modifies this, stock
      ensures State() == Create(old(State()), items, extras, catalog)
      ensures ok <==> (items != [] || extras > 0) && Affordable(old(stock.levels), items, catalog)
    {
      if items == [] && extras == 0 { return false; }
      var invMap := Load(catalog, Ids(items));
      var counts := BuildInventoryCountByKey(items, invMap);
      CountsMean(stock.levels, counts, items, catalog);
      var accepted := ValidateInventoryCounts(counts, stock.levels, invMap);
      if !accepted { return false; }
      var begin := stock.levels;
      var done := stock.DeductInventory(counts);
      if !done {
        stock.levels := begin;
        return false;
      }
      orders := orders + [Order(Stored(items, true), extras, Waiting, false)];
      return true;
    }

    method AppendOrderItems(id: nat, items: seq<Item>, extras: nat) returns (ok: bool)
      modifies this, stock
      ensures State() == Append(old(State()), id, items, extras, catalog)
      ensures ok <==>
              && (items != [] || extras > 0) && Editable(old(State()), id)
              && Affordable(old(stock.levels), items, catalog)
    {
      if items == [] && extras == 0 { return false; }
      if id >= |orders| || orders[id].locked || !Active(orders[id].status) { return false; }
      var invMap := Load(catalog, Ids(items));
      var counts := BuildInventoryCountByKey(items, invMap);
      CountsMean(stock.levels, counts, items, catalog);
      var accepted := ValidateInventoryCounts(counts, stock.levels, invMap);
      if !accepted { return false; }
      var begin := stock.levels;
      var done := stock.DeductInventory(counts);
      if !done {
        stock.levels := begin;
        return false;
      }
      var o := orders[id];
      orders := orders[id := o.(items := o.items + Stored(items, false), extras := o.extras + extras,
                                   status := Waiting)];
      return true;
    }

    method CancelOrder(id: nat, force: bool) returns (ok: bool)
      modifies this, stock
      ensures State() == Cancel(old(State()), id, force, catalog)
      ensures ok <==> Cancelable(old(State()), id, force)
    {
      if id >= |orders| { return false; }
      if orders[id].status == Canceled { return true; }
      if orders[id].status == Completed && !force { return false; }
      var counts := BuildInventoryCountByKey(orders[id].items, Load(catalog, Ids(orders[id].items)));
      CountsMean(stock.levels, counts, orders[id].items, catalog);
      stock.RestoreInventory(counts);
      orders := orders[id := orders[id].(items := [], extras := 0, status := Canceled)];
      return true;
    }

    /** An empty request is not validated. */
    method Validate(items: seq<Item>, counts: Counts) returns (ok: bool)
      requires Tallies(counts, items, catalog)
      ensures ok <==> items == [] || Valid(stock.levels, items, catalog)
    {
      if items == [] { return true; }
      AcceptsIsValid(stock.levels, counts, items, catalog);
      ok := ValidateInventoryCounts(counts, stock.levels, Load(catalog, Ids(items)));
    }

    /** Old lines back, new lines out, in one transaction. */
    method ExchangeStock(oldItems: seq<Item>, items: seq<Item>, newCounts: Counts) returns (ok: bool)
      requires Tallies(newCounts, items, catalog)
      modifies stock
      ensures ok <==> Sufficient(Restored(old(stock.levels), oldItems, catalog), items, catalog)
      ensures stock.levels == if ok then Deducted(Restored(old(stock.levels), oldItems, catalog), items, catalog)
          else old(stock.levels)
    {
      var oldCounts := BuildInventoryCountByKey(oldItems, Load(catalog, Ids(oldItems)));
      CountsMean(stock.levels, oldCounts, oldItems, catalog);
      var begin := stock.levels;
      stock.RestoreInventory(oldCounts);
      CountsMean(stock.levels, newCounts, items, catalog);
      ok := stock.DeductInventory(newCounts);
      if !ok { stock.levels := begin; }
    }

    method UpdateOrderItems(id: nat, items: seq<Item>, extras: nat, baseItemCount: Option<int>) returns (ok: bool)
      modifies this, stock
      ensures State() == Replace(old(State()), id, items, extras, baseItemCount, catalog)
      ensures ok <==> Replaceable(old(State()), id, items, extras, baseItemCount, catalog)
    {
      if id >= |orders| || orders[id].locked || !Active(orders[id].status) { return false; }
      var o := orders[id];
      if baseItemCount.Some? && baseItemCount.value != |o.items| { return false; }
      if items == [] && extras == 0 && o.extras == 0 {
        ok := CancelOrder(id, false);
        return;
      }
      var newCounts := BuildInventoryCountByKey(items, Load(catalog, Ids(items)));
      var accepted := Validate(items, newCounts);
      if !accepted { return false; }
      var done := ExchangeStock(o.items, items, newCounts);
      if !done { return false; }
      orders := orders[id := o.(items := ComeBack(o) + Stored(items, false), extras := o.extras + extras,
                                   status := Waiting)];
      return true;
    }

    method RemoveOrderItems(id: nat, productId: nat, unitIndex: Option<int>) returns (ok: bool)
      modifies this, stock
      ensures State() == Remove(old(State()), id, productId, unitIndex, catalog)
      ensures ok <==> Editable(old(State()), id) && ChosenLines(old(orders)[id].items, productId, unitIndex).Some?
    {
      if id >= |orders| || orders[id].locked || !Active(orders[id].status) { return false; }
      var o := orders[id];
      var ofProduct := LinesOf(o.items, productId);
      if |ofProduct| == 0 { return false; }
      var chosen := ofProduct;
      if unitIndex.Some? {
        if unitIndex.value < 0 || unitIndex.value >= |ofProduct| { return false; }
        chosen := [ofProduct[unitIndex.value]];
      }
      if |o.items| - |chosen| <= 0 && o.extras == 0 {
        ok := CancelOrder(id, false);
        return;
      }
      var removed := Pick(o.items, chosen, false);
      var counts := BuildInventoryCountByKey(removed, Load(catalog, Ids(removed)));
      CountsMean(stock.levels, counts, removed, catalog);
      stock.RestoreInventory(counts);
      orders := orders[id := o.(items := if o.status == Ready then o.items else Pick(o.items, chosen, true),
                                status := Waiting)];
      return true;
    }
  }

  /** The count map and the count function say the same. */
  ghost predicate Tallies(counts: Counts, items: seq<Item>, catalog: Catalog) {
    forall k :: At(counts, k) == Count(items, catalog, k)
  }

  lemma AcceptsIsValid(levels: Levels, counts: Counts, items: seq<Item>, catalog: Catalog)
    requires Tallies(counts, items, catalog)
    ensures Accepts(levels, Load(catalog, Ids(items)), counts) <==> Valid(levels, items, catalog)
  {
    var invMap := Load(catalog, Ids(items));
    if Accepts(levels, invMap, counts) {
      forall k | Count(items, catalog, k) > 0 && Available(k, levels, invMap).Some?
        ensures Count(items, catalog, k) <= Available(k, levels, invMap).value
      {
        assert At(counts, k) == Count(items, catalog, k);
      }
    }
    if Valid(levels, items, catalog) {
      forall k | k in counts && counts[k] > 0 && Available(k, levels, invMap).Some?
        ensures counts[k] <= Available(k, levels, invMap).value
      {
        assert At(counts, k) == Count(items, catalog, k);
      }
    }
  }

  lemma EnoughIsSufficient(levels: Levels, counts: Counts, items: seq<Item>, catalog: Catalog)
    requires Tallies(counts, items, catalog)
    ensures Enough(levels, counts) <==> Sufficient(levels, items, catalog)
  {
    if Enough(levels, counts) {
      forall k | k in levels && Count(items, catalog, k) > 0 ensures Count(items, catalog, k) <= levels[k] {
        assert At(counts, k) == Count(items, catalog, k);
      }
    }
    if Sufficient(levels, items, catalog) {
      forall k | k in counts && counts[k] > 0 && k in levels ensures counts[k] <= levels[k] {
        assert At(counts, k) == Count(items, catalog, k);
      }
    }
  }

  lemma LevelsMove(levels: Levels, counts: Counts, items: seq<Item>, catalog: Catalog)
    requires Tallies(counts, items, catalog)
    ensures Less(levels, counts) == Deducted(levels, items, catalog)
    ensures More(levels, counts) == Restored(levels, items, catalog)
  {
    forall k <- levels ensures Less(levels, counts)[k] == Deducted(levels, items, catalog)[k]
                               && More(levels, counts)[k] == Restored(levels, items, catalog)[k]
    {
      assert At(counts, k) == Count(items, catalog, k);
    }
  }

  lemma CountsMean(levels: Levels, counts: Counts, items: seq<Item>, catalog: Catalog)
    requires Tallies(counts, items, catalog)
    ensures Accepts(levels, Load(catalog, Ids(items)), counts) <==> Valid(levels, items, catalog)
    ensures Enough(levels, counts) <==> Sufficient(levels, items, catalog)
    ensures Less(levels, counts) == Deducted(levels, items, catalog)
    ensures More(levels, counts) == Restored(levels, items, catalog)
  {
    AcceptsIsValid(levels, counts, items, catalog);
    EnoughIsSufficient(levels, counts, items, catalog);
    LevelsMove(levels, counts, items, catalog);
  }
}
