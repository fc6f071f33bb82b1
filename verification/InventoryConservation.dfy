/** What the order operations keep of the stock (orders.service.ts): stock is never negative, and stock
    plus the lines of all orders is constant exactly when what is stored counts as what was taken. */
module InventoryConservation {
  import opened Options
  import opened StockKeys
  import opened InventoryCounts
  import opened InventoryLedger
  import opened InventoryValidation
  import opened OrderStatuses
  import opened Sequences

  /** What all orders together hold of a key. Canceled orders have no lines. */
  function Held(orders: seq<Order>, catalog: Catalog, key: Key): nat {
    if orders == [] then 0
    else Held(orders[..|orders| - 1], catalog, key) + Count(orders[|orders| - 1].items, catalog, key)
  }

  /** The same rows, and each with the same total of stock and held units. */
  ghost predicate Conserves(before: Ledger, after: Ledger, catalog: Catalog) {
    && before.levels.Keys == after.levels.Keys
    && forall k <- before.levels ::
         after.levels[k] + Held(after.orders, catalog, k) == before.levels[k] + Held(before.orders, catalog, k)
  }

  lemma {:induction false} HeldUpdate(orders: seq<Order>, id: nat, o: Order, catalog: Catalog, key: Key)
    requires id < |orders|
    ensures Held(orders[id := o], catalog, key) ==
            Held(orders, catalog, key) - Count(orders[id].items, catalog, key) + Count(o.items, catalog, key)
    decreases |orders|
  {
    var n := |orders| - 1;
    if id < n {
      HeldUpdate(orders[..n], id, o, catalog, key);
      assert orders[id := o][..n] == orders[..n][id := o];
    } else {
      assert orders[id := o][..n] == orders[..n];
    }
  }

  lemma HeldAppend(orders: seq<Order>, o: Order, catalog: Catalog, key: Key)
    ensures Held(orders + [o], catalog, key) == Held(orders, catalog, key) + Count(o.items, catalog, key)
  {
    assert (orders + [o])[..|orders|] == orders;
  }

  // ---------- What every run keeps ----------

  /** Stock is not negative, and canceled orders hold nothing. */
  ghost predicate Sane(l: Ledger) {
    && NonNegative(l.levels)
    && forall i :: 0 <= i < |l.orders| ==> IsVersion(l.orders[i])
  }

  lemma ApplySane(l: Ledger, op: Operation, catalog: Catalog)
    requires Sane(l)
    ensures Sane(Apply(l, op, catalog)) && Apply(l, op, catalog).levels.Keys == l.levels.Keys
  {
  }

  /** Over every run, whatever the catalogue and the requests, no stock row goes negative or disappears. */
  lemma {:induction false} StockNeverNegative(l: Ledger, ops: seq<Operation>, catalog: Catalog)
    requires Sane(l)
    ensures Sane(ApplyAll(l, ops, catalog)) && ApplyAll(l, ops, catalog).levels.Keys == l.levels.Keys
    decreases |ops|
  {
    if ops != [] {
      var n := |ops| - 1;
      StockNeverNegative(l, ops[..n], catalog);
      ApplySane(ApplyAll(l, ops[..n], catalog), ops[n], catalog);
    }
  }

  // ---------- Exactly when a step conserves ----------

  /** The lines stored count as `units` says, on every stock row. */
  ghost predicate CountsAs(levels: Levels, items: seq<Item>, units: Key -> int, catalog: Catalog) {
    forall k <- levels :: Count(items, catalog, k) == units(k)
  }

  ghost function UnitsOf(items: seq<Item>, catalog: Catalog): Key -> int { k => Count(items, catalog, k) }

  ghost function Both(a: seq<Item>, b: seq<Item>, catalog: Catalog): Key -> int {
    k => Count(a, catalog, k) + Count(b, catalog, k)
  }

  /** What the source compares before it turns an exchange or a removal into a cancellation. */
  predicate BecomesCancel(o: Order, op: Operation) {
    match op
    case ReplaceOp(_, items, extras, _) => items == [] && extras == 0 && o.extras == 0
    case RemoveOp(_, productId, unitIndex) =>
      var chosen := ChosenLines(o.items, productId, unitIndex);
      chosen.Some? && |o.items| - |chosen.value| <= 0 && o.extras == 0
    case _ => false
  }

  /** What an accepted request stores counts as what it takes from the stock. It can be computed from the
      request, the order and the catalogue. */
  ghost predicate Balanced(l: Ledger, op: Operation, catalog: Catalog) {
    match op
    case CreateOp(items, _) => CountsAs(l.levels, Stored(items, true), UnitsOf(items, catalog), catalog)
    case AppendOp(id, items, _) =>
      id < |l.orders| ==> CountsAs(l.levels, l.orders[id].items + Stored(items, false),
          Both(l.orders[id].items, items, catalog), catalog)
    case ReplaceOp(id, items, _, _) =>
      id < |l.orders| && !BecomesCancel(l.orders[id], op) ==>
        CountsAs(l.levels, ComeBack(l.orders[id]) + Stored(items, false), UnitsOf(items, catalog), catalog)
    case RemoveOp(id, productId, unitIndex) =>
      id < |l.orders| && !BecomesCancel(l.orders[id], op)
      && ChosenLines(l.orders[id].items, productId, unitIndex).Some? ==>
        var o := l.orders[id];
        var chosen := ChosenLines(o.items, productId, unitIndex).value;
        var left := if o.status == Ready then o.items else Pick(o.items, chosen, true);
        CountsAs(l.levels, o.items, Both(left, Pick(o.items, chosen, false), catalog), catalog)
    case SaveOp(id, copy) =>
      id < |l.orders| ==> CountsAs(l.levels, copy.items, UnitsOf(l.orders[id].items, catalog), catalog)
    case _ => true
  }

  /** One order's lines change and the stock moves. */
  lemma UpdateConservesExactlyWhen(l: Ledger, after: Ledger, id: nat, o: Order, catalog: Catalog)
    requires id < |l.orders| && after.orders == l.orders[id := o] && after.levels.Keys == l.levels.Keys
    ensures Conserves(l, after, catalog) <==>
            forall k <- l.levels ::
              after.levels[k] + Count(o.items, catalog, k) == l.levels[k] + Count(l.orders[id].items, catalog, k)
  {
    forall k <- l.levels
      ensures (after.levels[k] + Held(after.orders, catalog, k) == l.levels[k] + Held(l.orders, catalog, k)) <==>
              (after.levels[k] + Count(o.items, catalog, k) == l.levels[k] + Count(l.orders[id].items, catalog, k))
    {
      HeldUpdate(l.orders, id, o, catalog, k);
    }
  }

  lemma CancelConserves(l: Ledger, id: nat, force: bool, catalog: Catalog)
    ensures Conserves(l, Cancel(l, id, force, catalog), catalog)
  {
    var after := Cancel(l, id, force, catalog);
    if after != l {
      UpdateConservesExactlyWhen(l, after, id, after.orders[id], catalog);
    }
  }

  lemma CreateConservesExactlyWhen(l: Ledger, items: seq<Item>, extras: nat, catalog: Catalog)
    ensures var after := Create(l, items, extras, catalog);
            Conserves(l, after, catalog) <==> after == l || Balanced(l, CreateOp(items, extras), catalog)
  {
    var after := Create(l, items, extras, catalog);
    if after != l {
      AddedConservesExactlyWhen(l, after, items, Stored(items, true), after.orders[|l.orders|], catalog);
    }
  }

  lemma AddedConservesExactlyWhen(l: Ledger, after: Ledger, items: seq<Item>, stored: seq<Item>, o: Order,
      catalog: Catalog)
    requires after.orders == l.orders + [o] && o.items == stored && after.levels == Deducted(l.levels, items, catalog)
    ensures Conserves(l, after, catalog) <==> CountsAs(l.levels, stored, UnitsOf(items, catalog), catalog)
  {
    forall k <- l.levels
      ensures (after.levels[k] + Held(after.orders, catalog, k) == l.levels[k] + Held(l.orders, catalog, k)) <==>
              Count(stored, catalog, k) == UnitsOf(items, catalog)(k)
    {
      HeldAppend(l.orders, o, catalog, k);
    }
  }

  lemma AppendConservesExactlyWhen(l: Ledger, id: nat, items: seq<Item>, extras: nat, catalog: Catalog)
    ensures var after := Append(l, id, items, extras, catalog);
            Conserves(l, after, catalog) <==> after == l || Balanced(l, AppendOp(id, items, extras), catalog)
  {
    var after := Append(l, id, items, extras, catalog);
    if after != l { UpdateConservesExactlyWhen(l, after, id, after.orders[id], catalog); }
  }

  lemma ReplaceConservesExactlyWhen(l: Ledger, id: nat, items: seq<Item>, extras: nat, base: Option<int>,
      catalog: Catalog)
    ensures var after := Replace(l, id, items, extras, base, catalog);
            Conserves(l, after, catalog) <==> after == l || Balanced(l, ReplaceOp(id, items, extras, base), catalog)
  {
    var after := Replace(l, id, items, extras, base, catalog);
    if after != l {
      if BecomesCancel(l.orders[id], ReplaceOp(id, items, extras, base)) {
        CancelConserves(l, id, false, catalog);
      } else {
        UpdateConservesExactlyWhen(l, after, id, after.orders[id], catalog);
      }
    }
  }

  lemma RemoveConservesExactlyWhen(l: Ledger, id: nat, productId: nat, unitIndex: Option<int>, catalog: Catalog)
    ensures var after := Remove(l, id, productId, unitIndex, catalog);
            Conserves(l, after, catalog) <==> after == l || Balanced(l, RemoveOp(id, productId, unitIndex), catalog)
  {
    var after := Remove(l, id, productId, unitIndex, catalog);
    if after != l {
      if BecomesCancel(l.orders[id], RemoveOp(id, productId, unitIndex)) {
        CancelConserves(l, id, false, catalog);
      } else {
        UpdateConservesExactlyWhen(l, after, id, after.orders[id], catalog);
      }
    }
  }

  /** Every operation conserves exactly when it is refused or balanced. */
  lemma ApplyConservesExactlyWhen(l: Ledger, op: Operation, catalog: Catalog)
    ensures Conserves(l, Apply(l, op, catalog), catalog) <==> Apply(l, op, catalog) == l || Balanced(l, op, catalog)
  {
    match op
    case CreateOp(items, extras) => CreateConservesExactlyWhen(l, items, extras, catalog);
    case AppendOp(id, items, extras) => AppendConservesExactlyWhen(l, id, items, extras, catalog);
    case ReplaceOp(id, items, extras, base) => ReplaceConservesExactlyWhen(l, id, items, extras, base, catalog);
    case RemoveOp(id, productId, unitIndex) => RemoveConservesExactlyWhen(l, id, productId, unitIndex, catalog);
    case CancelOp(id, force) => CancelConserves(l, id, force, catalog);
    case AdvanceOp(id, status) =>
      if Apply(l, op, catalog) != l {
        UpdateConservesExactlyWhen(l, Apply(l, op, catalog), id, l.orders[id].(status := status), catalog);
      }
    case LockOp(id, locked) =>
      if id < |l.orders| {
        UpdateConservesExactlyWhen(l, Apply(l, op, catalog), id, l.orders[id].(locked := locked), catalog);
      }
    case SaveOp(id, copy) =>
      if id < |l.orders| && IsVersion(copy) {
        UpdateConservesExactlyWhen(l, Apply(l, op, catalog), id, copy, catalog);
      }
  }

  /** A cancellation whose order is then saved by a call that read it before: the stock was given back, and
      the lines are in the order again. */
  lemma SavedAfterCancel(l: Ledger, id: nat, force: bool, catalog: Catalog, k: Key)
    requires id < |l.orders| && IsVersion(l.orders[id]) && Cancel(l, id, force, catalog) != l && k in l.levels
    ensures var after := Apply(Cancel(l, id, force, catalog), SaveOp(id, l.orders[id]), catalog);
            && after.orders == l.orders
            && after.levels[k] + Held(after.orders, catalog, k) ==
               l.levels[k] + Held(l.orders, catalog, k) + Count(l.orders[id].items, catalog, k)
  {
    assert l.orders[id := l.orders[id]] == l.orders;
  }

  // ---------- Exactly when a run conserves ----------

  ghost predicate StepBalanced(l: Ledger, ops: seq<Operation>, n: nat, catalog: Catalog)
    requires n < |ops|
  {
    var before := ApplyAll(l, ops[..n], catalog);
    Apply(before, ops[n], catalog) == before || Balanced(before, ops[n], catalog)
  }

  lemma StepOfRun(l: Ledger, ops: seq<Operation>, n: nat, catalog: Catalog)
    requires n < |ops|
    ensures ApplyAll(l, ops[..n + 1], catalog) == Apply(ApplyAll(l, ops[..n], catalog), ops[n], catalog)
    ensures Conserves(ApplyAll(l, ops[..n], catalog), ApplyAll(l, ops[..n + 1], catalog), catalog) <==>
        StepBalanced(l, ops, n, catalog)
  {
    assert ops[..n + 1][..n] == ops[..n];
    ApplyConservesExactlyWhen(ApplyAll(l, ops[..n], catalog), ops[n], catalog);
  }

  ghost predicate ConservesAt(l: Ledger, ops: seq<Operation>, n: nat, catalog: Catalog)
    requires n <= |ops|
  {
    Conserves(l, ApplyAll(l, ops[..n], catalog), catalog)
  }

  lemma ConservesOnward(l: Ledger, m: Ledger, r: Ledger, catalog: Catalog)
    requires Conserves(l, m, catalog)
    ensures Conserves(l, r, catalog) <==> Conserves(m, r, catalog)
  {
  }

  lemma {:induction false} BalancedRunConserves(l: Ledger, ops: seq<Operation>, n: nat, catalog: Catalog)
    requires n <= |ops| && forall i: nat | i < n :: StepBalanced(l, ops, i, catalog)
    ensures ConservesAt(l, ops, n, catalog)
  {
    if n == 0 {
      assert ops[..0] == [];
    } else {
      BalancedRunConserves(l, ops, n - 1, catalog);
      assert StepBalanced(l, ops, n - 1, catalog);
      StepOfRun(l, ops, n - 1, catalog);
      ConservesOnward(l, ApplyAll(l, ops[..n - 1], catalog), ApplyAll(l, ops[..n], catalog), catalog);
    }
  }

  /** In every run, stock plus what the orders hold is the same at all times exactly when every step of it is
      refused or balanced. */
  lemma RunConservesExactlyWhen(l: Ledger, ops: seq<Operation>, catalog: Catalog)
    ensures (forall n: nat | n <= |ops| :: ConservesAt(l, ops, n, catalog)) <==>
            (forall n: nat | n < |ops| :: StepBalanced(l, ops, n, catalog))
  {
    if forall n: nat | n <= |ops| :: ConservesAt(l, ops, n, catalog) {
      forall n: nat | n < |ops| ensures StepBalanced(l, ops, n, catalog) {
        assert ConservesAt(l, ops, n, catalog) && ConservesAt(l, ops, n + 1, catalog);
        StepOfRun(l, ops, n, catalog);
        ConservesOnward(l, ApplyAll(l, ops[..n], catalog), ApplyAll(l, ops[..n + 1], catalog), catalog);
      }
    }
    if forall n: nat | n < |ops| :: StepBalanced(l, ops, n, catalog) {
      forall n: nat | n <= |ops| ensures ConservesAt(l, ops, n, catalog) {
        BalancedRunConserves(l, ops, n, catalog);
      }
    }
  }

  /** When a balanced run ends with everything canceled, every row is back where it started. */
  lemma AllCanceledRestoresStock(l: Ledger, ops: seq<Operation>, catalog: Catalog)
    requires Sane(l) && l.orders == [] && forall n: nat | n < |ops| :: StepBalanced(l, ops, n, catalog)
    requires forall i :: 0 <= i < |ApplyAll(l, ops, catalog).orders| ==>
        ApplyAll(l, ops, catalog).orders[i].status == Canceled
    ensures ApplyAll(l, ops, catalog).levels == l.levels
  {
    BalancedRunConserves(l, ops, |ops|, catalog);
    StockNeverNegative(l, ops, catalog);
    var after := ApplyAll(l, ops, catalog);
    assert ops[..|ops|] == ops;
    forall k <- l.levels ensures after.levels[k] == l.levels[k] {
      NothingHeld(after.orders, catalog, k);
    }
  }

  lemma {:induction false} NothingHeld(orders: seq<Order>, catalog: Catalog, key: Key)
    requires forall i :: 0 <= i < |orders| ==> orders[i].items == []
    ensures Held(orders, catalog, key) == 0
    decreases |orders|
  {
    if orders != [] { NothingHeld(orders[..|orders| - 1], catalog, key); }
  }

  /** Any number of cancellations that all read the order first restore its stock once. */
  ghost function CancelAll(l: Ledger, id: nat, forces: seq<bool>, read: seq<Item>, catalog: Catalog): Ledger {
    if forces == [] then l
    else CancelWith(CancelAll(l, id, forces[..|forces| - 1], read, catalog), id, forces[|forces| - 1], read, catalog)
  }

  lemma {:induction false} RacingCancelsRestoreOnce(l: Ledger, id: nat, forces: seq<bool>, catalog: Catalog)
    requires id < |l.orders| && forces != []
    ensures CancelAll(l, id, forces, l.orders[id].items, catalog) == Cancel(l, id, true in forces, catalog)
    decreases |forces|
  {
    var n := |forces| - 1;
    assert forces == forces[..n] + [forces[n]];
    if n > 0 { RacingCancelsRestoreOnce(l, id, forces[..n], catalog); }
  }

  // ---------- Clean requests in a self-contained catalogue ----------

  lemma CleanAttributeIsStored(a: Attribute, dropBlank: bool)
    requires CleanAttribute(a)
    ensures StoredAttribute(a, dropBlank) == [a]
  {
  }

  lemma {:induction false} CleanIsStored(attributes: seq<Attribute>, dropBlank: bool)
    requires CleanAttributes(attributes)
    ensures StoredAttributes(attributes, dropBlank) == attributes
    decreases |attributes|
  {
    if attributes != [] {
      var n := |attributes| - 1;
      CleanIsStored(attributes[..n], dropBlank);
      CleanAttributeIsStored(attributes[n], dropBlank);
      assert attributes == attributes[..n] + [attributes[n]];
    }
  }

  lemma SameLinesSnoc(items: seq<Item>, other: seq<Item>, x: Item, y: Item)
    requires SameLines(items, other) && x.productId == y.productId && x.attributes == y.attributes
    ensures SameLines(items + [x], other + [y])
  {
  }

  /** Clean lines are stored as they were counted, apart from the variant chosen for an also-deduct. */
  lemma {:induction false} StoredSameLines(items: seq<Item>, dropBlank: bool)
    requires Clean(items)
    ensures SameLines(items, Stored(items, dropBlank))
    decreases |items|
  {
    if items != [] {
      var n := |items| - 1;
      StoredSameLines(items[..n], dropBlank);
      var stored := Item(items[n].productId, StoredAttributes(items[n].attributes, dropBlank), None);
      CleanIsStored(items[n].attributes, dropBlank);
      SameLinesSnoc(items[..n], Stored(items[..n], dropBlank), items[n], stored);
      assert items == items[..n] + [items[n]];
    }
  }

  lemma StoredCounts(items: seq<Item>, dropBlank: bool, catalog: Catalog, key: Key)
    requires Clean(items) && SelfContained(catalog)
    ensures Count(Stored(items, dropBlank), catalog, key) == Count(items, catalog, key)
  {
    StoredSameLines(items, dropBlank);
    SameLinesCount(items, Stored(items, dropBlank), catalog, key);
  }

  /** Taking some lines out splits the count in two. */
  lemma {:induction false} PickSplits(items: seq<Item>, chosen: seq<nat>, all: seq<Item>, invMap: Catalog, key: Key)
    ensures CountIn(items, all, invMap, key) ==
            CountIn(Pick(items, chosen, true), all, invMap, key) + CountIn(Pick(items, chosen, false), all, invMap, key)
    decreases |items|
  {
    if items != [] {
      var n := |items| - 1;
      PickSplits(items[..n], chosen, all, invMap, key);
      var keep := n !in chosen;
      var part := Pick(items[..n], chosen, keep);
      assert (part + [items[n]])[..|part|] == part;
      assert Pick(items, chosen, keep) == part + [items[n]] && Pick(items, chosen, !keep) ==
          Pick(items[..n], chosen, !keep);
    }
  }

  lemma {:induction false} PickedAreItems(items: seq<Item>, chosen: seq<nat>, keep: bool)
    ensures forall i <- Pick(items, chosen, keep) :: i in items
    decreases |items|
  {
    if items != [] {
      PickedAreItems(items[..|items| - 1], chosen, keep);
      assert forall i <- items[..|items| - 1] :: i in items;
    }
  }

  lemma RemovedAndLeft(items: seq<Item>, chosen: seq<nat>, catalog: Catalog, key: Key)
    requires SelfContained(catalog)
    ensures Count(Pick(items, chosen, true), catalog, key) + Count(Pick(items, chosen, false), catalog, key) ==
        Count(items, catalog, key)
  {
    var left, gone := Pick(items, chosen, true), Pick(items, chosen, false);
    PickSplits(items, chosen, items, Load(catalog, Ids(items)), key);
    PickedAreItems(items, chosen, true);
    PickedAreItems(items, chosen, false);
    assert Ids(left) <= Ids(items) && Ids(gone) <= Ids(items);
    CountInAgrees(left, items, Ids(items), left, left, Ids(left), catalog, key);
    CountInAgrees(gone, items, Ids(items), gone, gone, Ids(gone), catalog, key);
  }

  /** Requests carry clean attributes. */
  predicate CleanRequest(op: Operation) {
    match op
    case CreateOp(items, _) => Clean(items)
    case AppendOp(_, items, _) => Clean(items)
    case ReplaceOp(_, items, _, _) => Clean(items)
    case _ => true
  }

  /** The lines an exchange or a removal on an order past cooking deletes and then saves again. */
  function Returning(o: Order, op: Operation): seq<Item> {
    if o.status != Ready || BecomesCancel(o, op) then []
    else if op.ReplaceOp? then o.items
    else if op.RemoveOp? && ChosenLines(o.items, op.productId, op.unitIndex).Some?
    then Pick(o.items, ChosenLines(o.items, op.productId, op.unitIndex).value, false)
    else []
  }

  /** None of the lines that come back holds stock, and a saved version holds what the order holds. */
  ghost predicate NothingReturns(l: Ledger, op: Operation, catalog: Catalog) {
    && ((op.ReplaceOp? || op.RemoveOp?) && op.id < |l.orders| ==>
          forall k <- l.levels :: Count(Returning(l.orders[op.id], op), catalog, k) == 0)
    && (op.SaveOp? && op.id < |l.orders| ==>
          forall k <- l.levels :: Count(op.copy.items, catalog, k) == Count(l.orders[op.id].items, catalog, k))
  }

  lemma CleanExchange(l: Ledger, id: nat, items: seq<Item>, extras: nat, base: Option<int>, catalog: Catalog)
    requires SelfContained(catalog) && Clean(items)
    ensures var op := ReplaceOp(id, items, extras, base); Balanced(l, op, catalog) <==> NothingReturns(l, op, catalog)
  {
    var op := ReplaceOp(id, items, extras, base);
    if id < |l.orders| {
      forall k <- l.levels
        ensures Count(ComeBack(l.orders[id]) + Stored(items, false), catalog, k) ==
                Count(ComeBack(l.orders[id]), catalog, k) + Count(items, catalog, k)
        ensures Count([], catalog, k) == 0
      {
        StoredCounts(items, false, catalog, k);
        CountConcat(ComeBack(l.orders[id]), Stored(items, false), catalog, k);
      }
    }
  }

  lemma RemovalBalance(levels: Levels, items: seq<Item>, left: seq<Item>, gone: seq<Item>, ready: bool,
      catalog: Catalog)
    requires forall k <- levels :: Count(left, catalog, k) + Count(gone, catalog, k) == Count(items, catalog, k)
    ensures CountsAs(levels, items, Both(if ready then items else left, gone, catalog), catalog) <==>
            forall k <- levels :: Count(if ready then gone else [], catalog, k) == 0
  {
    var units := Both(if ready then items else left, gone, catalog);
    forall k <- levels ensures Count(items, catalog, k) == units(k) <==>
        Count(if ready then gone else [], catalog, k) == 0 {
    }
  }

  lemma CleanRemoval(l: Ledger, id: nat, productId: nat, unitIndex: Option<int>, catalog: Catalog)
    requires SelfContained(catalog)
    ensures var op := RemoveOp(id, productId, unitIndex); Balanced(l, op, catalog) <==> NothingReturns(l, op, catalog)
  {
    if id < |l.orders| && ChosenLines(l.orders[id].items, productId, unitIndex).Some? {
      var o := l.orders[id];
      var chosen := ChosenLines(o.items, productId, unitIndex).value;
      forall k <- l.levels
        ensures Count(Pick(o.items, chosen, true), catalog, k) + Count(Pick(o.items, chosen, false), catalog, k) ==
            Count(o.items, catalog, k)
      {
        RemovedAndLeft(o.items, chosen, catalog, k);
      }
      var left, gone := Pick(o.items, chosen, true), Pick(o.items, chosen, false);
      RemovalBalance(l.levels, o.items, left, gone, o.status == Ready, catalog);
    }
  }

  /** With clean requests in a self-contained catalogue, what unbalances an operation is lines that come back:
      in an exchange or removal on an order past cooking, or in the save of an earlier version. */
  lemma CleanBalancedExactlyWhen(l: Ledger, op: Operation, catalog: Catalog)
    requires SelfContained(catalog) && CleanRequest(op)
    ensures Balanced(l, op, catalog) <==> NothingReturns(l, op, catalog)
  {
    match op
    case CreateOp(items, _) =>
      forall k <- l.levels ensures Count(Stored(items, true), catalog, k) == Count(items, catalog, k) {
        StoredCounts(items, true, catalog, k);
      }
    case AppendOp(id, items, _) =>
      if id < |l.orders| {
        forall k <- l.levels
          ensures Count(l.orders[id].items + Stored(items, false), catalog, k) ==
                  Count(l.orders[id].items, catalog, k) + Count(items, catalog, k)
        {
          StoredCounts(items, false, catalog, k);
          CountConcat(l.orders[id].items, Stored(items, false), catalog, k);
        }
      }
    case ReplaceOp(id, items, extras, base) => CleanExchange(l, id, items, extras, base, catalog);
    case RemoveOp(id, productId, unitIndex) => CleanRemoval(l, id, productId, unitIndex, catalog);
    case _ =>
  }

  /** Over every run of clean requests in a self-contained catalogue in which no lines come back, stock plus
      what the orders hold is constant for each row. */
  lemma RunConserves(l: Ledger, ops: seq<Operation>, catalog: Catalog)
    requires SelfContained(catalog)
    requires forall n: nat | n < |ops| :: CleanRequest(ops[n])
                && NothingReturns(ApplyAll(l, ops[..n], catalog), ops[n], catalog)
    ensures forall n: nat | n <= |ops| :: ConservesAt(l, ops, n, catalog)
  {
    forall n: nat | n < |ops| ensures StepBalanced(l, ops, n, catalog) {
      CleanBalancedExactlyWhen(ApplyAll(l, ops[..n], catalog), ops[n], catalog);
    }
    RunConservesExactlyWhen(l, ops, catalog);
  }

  // ---------- The three ways an accepted request can be unbalanced ----------

  /** A line whose also-deduct variant is chosen with it, for an entry that fixes none. */
  lemma {:induction false} ChosenEntries(ads: seq<AlsoDeduct>, line: Item, stored: Item, t: nat, v: Attribute,
      invMap: Catalog)
    requires line.attributes == [] && line.alsoDeductVariant == Some(Chosen(t, [v])) && v in VariantRows(t, invMap)
    requires stored == Item(line.productId, [], None)
    ensures var k := VariantKey(t, v.name, v.value);
            && Units(AlsoMoves(ads, stored, [stored], invMap), k) <= Units(AlsoMoves(ads, line, [line], invMap), k)
            && ((exists ad <- ads :: ad.productId == t && ad.fixed.None? && ad.baseUnits > 0) ==>
                  Units(AlsoMoves(ads, stored, [stored], invMap), k) < Units(AlsoMoves(ads, line, [line], invMap), k))
    decreases |ads|
  {
    if ads != [] {
      var n := |ads| - 1;
      var ad, k := ads[n], VariantKey(t, v.name, v.value);
      ChosenEntries(ads[..n], line, stored, t, v, invMap);
      AlsoMovesSnoc(ads, line, [line], invMap, k);
      AlsoMovesSnoc(ads, stored, [stored], invMap, k);
      assert [stored][1..] == [] && [line][1..] == [];
      assert FirstLine(ad.productId, [stored]) in {None, Some(stored)};
      assert FirstLine(ad.productId, [line]) in {None, Some(line)};
      if exists x <- ads :: x.productId == t && x.fixed.None? && x.baseUnits > 0 {
        var x :| x in ads && x.productId == t && x.fixed.None? && x.baseUnits > 0;
        assert x in ads[..n] || x == ad;
      }
    }
  }

  lemma StoredLine(line: Item)
    requires line.attributes == []
    ensures Stored([line], true) == [Item(line.productId, [], None)]
  {
    assert [line][..0] == [];
  }

  /** The variant chosen with a line is not stored: creating the order takes it, the order never holds it. */
  lemma ChosenVariantIsLost(l: Ledger, p: nat, ad: AlsoDeduct, v: Attribute, extras: nat, catalog: Catalog)
    requires Tracked(p, catalog) && ad in catalog[p].alsoDeductFrom && ad.fixed.None? && ad.baseUnits > 0
    requires ad.productId != p && v in VariantRows(ad.productId, catalog)
    requires VariantKey(ad.productId, v.name, v.value) in l.levels
    ensures var line := Item(p, [], Some(Chosen(ad.productId, [v])));
            Clean([line]) && (Create(l, [line], extras, catalog) != l ==>
                !Conserves(l, Create(l, [line], extras, catalog), catalog))
  {
    var t, k := ad.productId, VariantKey(ad.productId, v.name, v.value);
    var line, stored := Item(p, [], Some(Chosen(t, [v]))), Item(p, [], None);
    StoredLine(line);
    LoadedRequested(p, {p}, catalog);
    LoadedRows(p, ad, {p}, catalog);
    ChosenEntries(catalog[p].alsoDeductFrom, line, stored, t, v, Load(catalog, {p}));
    UnitsOfLine(line, [line], Load(catalog, {p}), k);
    UnitsOfLine(stored, [stored], Load(catalog, {p}), k);
    CountOne(line, catalog, k);
    CountOne(stored, catalog, k);
    assert Count([stored], catalog, k) < UnitsOf([line], catalog)(k);
    CreateConservesExactlyWhen(l, [line], extras, catalog);
  }

  lemma CreateAcceptedExactlyWhen(l: Ledger, items: seq<Item>, extras: nat, catalog: Catalog)
    ensures Create(l, items, extras, catalog) != l <==>
            (items != [] || extras != 0) && Valid(l.levels, items, catalog) && Sufficient(l.levels, items, catalog)
  {
  }

  /** Such a line takes from no pool but its product's own. */
  lemma LinePools(item: Item, catalog: Catalog, g: nat)
    requires item.attributes == [] && Count([item], catalog, GroupKey(g)) > 0
    ensures PoolRequested(g, [item], catalog)
  {
    var invMap := Load(catalog, Ids([item]));
    var line, m := CountFrom([item], [item], invMap, GroupKey(g));
    MoveFrom(line, [item], invMap, m);
    LoadedRequested(item.productId, Ids([item]), catalog);
    assert item in [item] && catalog[item.productId].pool == invMap[item.productId].pool;
  }

  /** ... and in a tidy configuration the creation is accepted whenever the rows hold enough. */
  lemma ChosenVariantIsAccepted(l: Ledger, p: nat, ad: AlsoDeduct, v: Attribute, extras: nat, catalog: Catalog)
    requires Agrees(l.levels, catalog) && NonNegative(l.levels) && Tidy(l.levels, catalog)
    ensures var line := Item(p, [], Some(Chosen(ad.productId, [v])));
            Create(l, [line], extras, catalog) != l <==> Sufficient(l.levels, [line], catalog)
  {
    var line := Item(p, [], Some(Chosen(ad.productId, [v])));
    forall g | Count([line], catalog, GroupKey(g)) > 0 ensures PoolRequested(g, [line], catalog) {
      LinePools(line, catalog, g);
    }
    TidyValidExactlyWhen(l.levels, [line], catalog);
    CreateAcceptedExactlyWhen(l, [line], extras, catalog);
  }

  /** An exchange on an order past cooking brings its old lines back: their stock was returned, and they
      are still in the order. */
  lemma ReadyExchangeKeepsOldLines(l: Ledger, id: nat, items: seq<Item>, extras: nat, catalog: Catalog, k: Key)
    requires id < |l.orders| && l.orders[id].status == Ready && !l.orders[id].locked
    requires SelfContained(catalog) && Clean(items) && items != []
    requires Valid(l.levels, items, catalog) && Sufficient(Restored(l.levels, l.orders[id].items, catalog), items,
        catalog)
    requires k in l.levels && Count(l.orders[id].items, catalog, k) > 0
    ensures var after := Replace(l, id, items, extras, None, catalog);
            && after.orders[id].items == l.orders[id].items + Stored(items, false)
            && after.levels[k] + Held(after.orders, catalog, k) ==
                l.levels[k] + Held(l.orders, catalog, k) + Count(l.orders[id].items, catalog, k)
  {
    var after := Replace(l, id, items, extras, None, catalog);
    HeldUpdate(l.orders, id, after.orders[id], catalog, k);
    StoredCounts(items, false, catalog, k);
    CountConcat(l.orders[id].items, Stored(items, false), catalog, k);
  }

  /** A product with one variant row. */
  function OneVariant(): Catalog { map[1 := Info(true, [Attribute("lado", "papas")], None, [], [])] }

  function Line(value: string): Item { Item(1, [Attribute("lado", value)], None) }

  lemma UntrimmedIsStoredTrimmed()
    ensures Stored([Line(" papas")], true) == [Line("papas")]
  {
    assert " papas"[1..] == "papas";
    assert TrimLeft(" papas") == TrimLeft("papas") == "papas";
    assert TrimRight("papas") == "papas" && Trim("lado") == "lado";
    var raw := [Attribute("lado", " papas")];
    assert raw[..0] == [] && StoredAttributes(raw, true) == [Attribute("lado", "papas")];
    var lines := [Line(" papas")];
    assert lines[..0] == [] && lines[0].attributes == raw;
    assert Stored(lines, true) == Stored([], true) + [Item(1, StoredAttributes(raw, true), None)];
  }

  lemma UntrimmedMoves(invMap: Catalog)
    requires invMap == Load(OneVariant(), {1})
    ensures Moves(Line(" papas"), [Line(" papas")], invMap) == [Move(ProductKey(1), 1)]
    ensures Moves(Line("papas"), [Line("papas")], invMap) == [Move(VariantKey(1, "lado", "papas"), 1)]
  {
    LoadedRequested(1, {1}, OneVariant());
    assert " papas"[0] != "papas"[0];
    assert [Attribute("lado", " papas")][1..] == [];
    MatchNoGroups(Line(" papas").attributes);
    MatchNoGroups(Line("papas").attributes);
  }

  lemma {:induction false} MatchNoGroups(attributes: seq<Attribute>)
    ensures MatchedGroup(attributes, []) == None
    decreases |attributes|
  {
    if attributes != [] { MatchNoGroups(attributes[1..]); }
  }

  lemma UntrimmedCounts(k: Key)
    ensures Count([Line(" papas")], OneVariant(), k) == if k == ProductKey(1) then 1 else 0
    ensures Count([Line("papas")], OneVariant(), k) == if k == VariantKey(1, "lado", "papas") then 1 else 0
  {
    UntrimmedMoves(Load(OneVariant(), {1}));
    CountOne(Line(" papas"), OneVariant(), k);
    CountOne(Line("papas"), OneVariant(), k);
    UnitsOne(Move(ProductKey(1), 1), k);
    UnitsOne(Move(VariantKey(1, "lado", "papas"), 1), k);
  }

  lemma UntrimmedIsAccepted(l: Ledger)
    requires ProductKey(1) in l.levels
    ensures Create(l, [Line(" papas")], 0, OneVariant()) != l <==> l.levels[ProductKey(1)] >= 1
  {
    forall k ensures Count([Line(" papas")], OneVariant(), k) == if k == ProductKey(1) then 1 else 0 {
      UntrimmedCounts(k);
    }
    assert Line(" papas") in [Line(" papas")] && 1 in Ids([Line(" papas")]);
    var invMap := Load(OneVariant(), Ids([Line(" papas")]));
    assert Available(ProductKey(1), l.levels, invMap) == Some(l.levels[ProductKey(1)]);
    CreateAcceptedExactlyWhen(l, [Line(" papas")], 0, OneVariant());
  }

  /** One untrimmed attribute: creation takes from the plain row, the order holds the variant row. It is
      accepted whenever the plain row holds a unit. */
  lemma UntrimmedAttributeBreaksConservation(l: Ledger)
    requires ProductKey(1) in l.levels && VariantKey(1, "lado", "papas") in l.levels
    ensures var after := Create(l, [Line(" papas")], 0, OneVariant());
            && (after != l <==> l.levels[ProductKey(1)] >= 1)
            && (after != l ==>
                  && after.levels[ProductKey(1)] == l.levels[ProductKey(1)] - 1
                  && after.orders == l.orders + [Order([Line("papas")], 0, Waiting, false)]
                  && Count([Line("papas")], OneVariant(), VariantKey(1, "lado", "papas")) == 1
                  && !Conserves(l, after, OneVariant()))
  {
    var k := VariantKey(1, "lado", "papas");
    UntrimmedIsStoredTrimmed();
    UntrimmedIsAccepted(l);
    UntrimmedCounts(ProductKey(1));
    UntrimmedCounts(k);
    assert Count(Stored([Line(" papas")], true), OneVariant(), k) != UnitsOf([Line(" papas")], OneVariant())(k);
    CreateConservesExactlyWhen(l, [Line(" papas")], 0, OneVariant());
  }
}
