/** When the check before a transaction and the guarded updates inside it agree (orders.service.ts,
    validateInventoryCounts and deductInventory). */
module InventoryValidation {
  import opened Options
  import opened StockKeys
  import opened InventoryCounts
  import opened InventoryLedger

  /** The stock rows are those of the configuration: a product's own row counts only while it tracks its
      inventory, and each variant row is listed with its product. */
  ghost predicate Agrees(levels: Levels, catalog: Catalog) {
    && (forall k <- levels :: k.ProductKey? ==> k.id in catalog && catalog[k.id].trackInventory)
    && (forall p <- catalog :: catalog[p].trackInventory ==> ProductKey(p) in levels)
    && (forall p <- catalog, a <- catalog[p].variantStocks :: VariantKey(p, a.name, a.value) in levels)
  }

  /** What the check can see of a key: a pool through a product of its own, a variant row through its
      product, a product row unless its product is in a pool. */
  predicate Visible(key: Key, levels: Levels, invMap: Catalog) {
    match key
    case GroupKey(g) => PoolKnown(g, invMap) && key in levels
    case VariantKey(p, name, value) => p in invMap && Attribute(name, value) in invMap[p].variantStocks && key in levels
    case ProductKey(p) => p in invMap && invMap[p].trackInventory ==> invMap[p].pool.None? && key in levels
  }

  /** Every product row that is counted was loaded. */
  ghost predicate Loaded(counts: Counts, levels: Levels, invMap: Catalog) {
    forall k <- counts :: counts[k] > 0 && k.ProductKey? && k in levels ==>
        k.id in invMap && invMap[k.id].trackInventory
  }

  /** The check accepts exactly the counts that deduction accepts and that it can see. */
  lemma AcceptsExactlyWhen(levels: Levels, invMap: Catalog, counts: Counts)
    requires Loaded(counts, levels, invMap)
    requires NonNegative(levels)
    ensures Accepts(levels, invMap, counts) <==>
            Enough(levels, counts) && forall k <- counts :: counts[k] > 0 ==> Visible(k, levels, invMap)
  {
    forall k | k in counts && counts[k] > 0
      ensures (Available(k, levels, invMap).Some? ==> counts[k] <= Available(k, levels, invMap).value) <==>
              (k in levels ==> counts[k] <= levels[k]) && Visible(k, levels, invMap)
    {
    }
  }

  // ---------- Where a count comes from ----------

  lemma {:induction false} UnitsFrom(moves: seq<Move>, key: Key) returns (m: Move)
    requires Units(moves, key) > 0
    ensures m in moves && m.key == key && m.units > 0
    decreases |moves|
  {
    m := moves[|moves| - 1];
    if m.key != key || m.units == 0 { m := UnitsFrom(moves[..|moves| - 1], key); }
  }

  lemma {:induction false} CountFrom(items: seq<Item>, all: seq<Item>, invMap: Catalog, key: Key)
      returns (item: Item, m: Move)
    requires CountIn(items, all, invMap, key) > 0
    ensures item in items && m in Moves(item, all, invMap) && m.key == key && m.units > 0
    decreases |items|
  {
    item := items[|items| - 1];
    if Units(Moves(item, all, invMap), key) > 0 {
      m := UnitsFrom(Moves(item, all, invMap), key);
    } else {
      item, m := CountFrom(items[..|items| - 1], all, invMap, key);
    }
  }

  lemma {:induction false} AlsoFrom(ads: seq<AlsoDeduct>, item: Item, all: seq<Item>, invMap: Catalog, m: Move)
      returns (ad: AlsoDeduct)
    requires m in AlsoMoves(ads, item, all, invMap)
    ensures ad in ads && m == AlsoMove(ad, item, all, invMap)
    decreases |ads|
  {
    ad := ads[|ads| - 1];
    if m != AlsoMove(ad, item, all, invMap) { ad := AlsoFrom(ads[..|ads| - 1], item, all, invMap, m); }
  }

  predicate IsPoolMove(item: Item, invMap: Catalog, m: Move)
    requires item.productId in invMap
  {
    var info := invMap[item.productId];
    var vg := MatchedGroup(item.attributes, info.variantGroups);
    if vg.Some? then m == Move(GroupKey(vg.value.groupId), vg.value.baseUnits)
    else info.pool.Some? && m == Move(GroupKey(info.pool.value.groupId), info.pool.value.baseUnits)
  }

  /** A move of a line is a pool's, one of its also-deduct entries', or its own. */
  lemma MoveFrom(item: Item, all: seq<Item>, invMap: Catalog, m: Move)
    requires m in Moves(item, all, invMap)
    ensures item.productId in invMap && invMap[item.productId].trackInventory
    ensures var info := invMap[item.productId];
            || IsPoolMove(item, invMap, m)
            || (exists ad <- info.alsoDeductFrom :: m == AlsoMove(ad, item, all, invMap))
            || (info.pool.None? && m == Move(OwnKey(item, info), 1))
  {
    var info := invMap[item.productId];
    if MatchedGroup(item.attributes, info.variantGroups).None?
        && m in AlsoMoves(info.alsoDeductFrom, item, all, invMap) {
      var ad := AlsoFrom(info.alsoDeductFrom, item, all, invMap, m);
    }
  }

  /** Whatever product a request takes from is loaded for it. */
  lemma TakenIsLoaded(items: seq<Item>, catalog: Catalog, key: Key)
    requires Count(items, catalog, key) > 0 && !key.GroupKey?
    ensures var p := if key.ProductKey? then key.id else key.productId;
            p in catalog ==> p in Load(catalog, Ids(items))
  {
    var invMap := Load(catalog, Ids(items));
    var item, m := CountFrom(items, items, invMap, key);
    MoveFrom(item, items, invMap, m);
    var info := invMap[item.productId];
    if ad :| ad in info.alsoDeductFrom && m == AlsoMove(ad, item, items, invMap) {
      assert ad in catalog[item.productId].alsoDeductFrom;
      assert IsTarget(ad.productId, Ids(items), catalog);
    }
  }

  // ---------- Requests ----------

  /** Every key a request takes from can be seen by its check. */
  ghost predicate AllVisible(levels: Levels, items: seq<Item>, catalog: Catalog) {
    forall k :: Count(items, catalog, k) > 0 ==> Visible(k, levels, Load(catalog, Ids(items)))
  }

  /** For every request: accepted by the check exactly when deduction would succeed and all keys are visible. */
  lemma ValidExactlyWhen(levels: Levels, items: seq<Item>, catalog: Catalog)
    requires Agrees(levels, catalog) && NonNegative(levels)
    ensures Valid(levels, items, catalog) <==> Sufficient(levels, items, catalog) && AllVisible(levels, items, catalog)
  {
    var invMap := Load(catalog, Ids(items));
    forall k | Count(items, catalog, k) > 0
      ensures (Available(k, levels, invMap).Some? ==>
                 Count(items, catalog, k) <= Available(k, levels, invMap).value) <==>
              (k in levels ==> Count(items, catalog, k) <= levels[k]) && Visible(k, levels, invMap)
    {
      if !k.GroupKey? { TakenIsLoaded(items, catalog, k); }
    }
  }

  /** What validation accepts, deduction cannot refuse. */
  lemma ValidationIsSufficient(levels: Levels, items: seq<Item>, catalog: Catalog)
    requires Agrees(levels, catalog) && NonNegative(levels) && Valid(levels, items, catalog)
    ensures Sufficient(levels, items, catalog)
    ensures forall o: seq<Item> :: Sufficient(Restored(levels, o, catalog), items, catalog)
  {
    ValidExactlyWhen(levels, items, catalog);
  }

  /** The pool belongs to one of the requested products. */
  predicate PoolRequested(g: nat, items: seq<Item>, catalog: Catalog) {
    exists i <- items :: i.productId in catalog && catalog[i.productId].pool.Some?
        && catalog[i.productId].pool.value.groupId == g
  }

  lemma PoolKnownExactlyWhen(g: nat, items: seq<Item>, catalog: Catalog)
    ensures PoolKnown(g, Load(catalog, Ids(items))) <==> PoolRequested(g, items, catalog)
  {
    var invMap := Load(catalog, Ids(items));
    if i :| i in items && i.productId in catalog && catalog[i.productId].pool.Some?
            && catalog[i.productId].pool.value.groupId == g {
      assert i.productId in Ids(items) && invMap[i.productId].pool == catalog[i.productId].pool;
    }
    if p :| p in invMap && invMap[p].pool.Some? && invMap[p].pool.value.groupId == g {
      assert p in Ids(items);
    }
  }

  /** A pool reached through a variant row only is refused, however full it is and whoever else holds it. */
  lemma VariantOnlyPoolIsRefused(levels: Levels, items: seq<Item>, catalog: Catalog, g: nat)
    requires Count(items, catalog, GroupKey(g)) > 0 && !PoolRequested(g, items, catalog)
    ensures !Valid(levels, items, catalog)
  {
    PoolKnownExactlyWhen(g, items, catalog);
    assert Available(GroupKey(g), levels, Load(catalog, Ids(items))) == Some(0);
  }

  /** Pools have a stock row; also-deduct entries name a product outside pools and, if they name a variant,
      one it has. */
  ghost predicate Tidy(levels: Levels, catalog: Catalog) {
    forall p <- catalog ::
      && (catalog[p].pool.Some? ==> GroupKey(catalog[p].pool.value.groupId) in levels)
      && (forall vg <- catalog[p].variantGroups :: GroupKey(vg.groupId) in levels)
      && forall ad <- catalog[p].alsoDeductFrom ::
           && !Pooled(ad.productId, catalog)
           && (ad.fixed.Some? && VariantRows(ad.productId, catalog) != [] ==>
               ad.fixed.value in VariantRows(ad.productId, catalog))
  }

  /** In a tidy configuration the only invisible keys are pools. */
  lemma AlsoVisible(levels: Levels, item: Item, items: seq<Item>, ad: AlsoDeduct, catalog: Catalog)
    requires Agrees(levels, catalog) && Tidy(levels, catalog) && item in items
    requires item.productId in catalog && ad in catalog[item.productId].alsoDeductFrom
    ensures Visible(AlsoMove(ad, item, items, Load(catalog, Ids(items))).key, levels, Load(catalog, Ids(items)))
  {
    var invMap := Load(catalog, Ids(items));
    assert item.productId in Ids(items);
    assert IsTarget(ad.productId, Ids(items), catalog);
    assert !Pooled(ad.productId, catalog);
  }

  lemma OwnVisible(levels: Levels, item: Item, items: seq<Item>, catalog: Catalog)
    requires Agrees(levels, catalog) && item in items
    requires var invMap := Load(catalog, Ids(items));
             item.productId in invMap && invMap[item.productId].trackInventory && invMap[item.productId].pool.None?
    ensures var invMap := Load(catalog, Ids(items));
            Visible(OwnKey(item, invMap[item.productId]), levels, invMap)
  {
    assert item.productId in Ids(items);
  }

  lemma PoolHasRow(levels: Levels, item: Item, items: seq<Item>, catalog: Catalog, m: Move)
    requires Tidy(levels, catalog) && item in items
    requires var invMap := Load(catalog, Ids(items)); item.productId in invMap && IsPoolMove(item, invMap, m)
    ensures m.key.GroupKey? && m.key in levels
  {
    assert item.productId in Ids(items);
    MatchedGroupMeaning(item.attributes, catalog[item.productId].variantGroups);
  }

  lemma TidyVisible(levels: Levels, items: seq<Item>, catalog: Catalog, k: Key)
    requires Agrees(levels, catalog) && Tidy(levels, catalog) && Count(items, catalog, k) > 0
    ensures Visible(k, levels, Load(catalog, Ids(items))) <==> (k.GroupKey? ==> PoolRequested(k.id, items, catalog))
  {
    var invMap := Load(catalog, Ids(items));
    var item, m := CountFrom(items, items, invMap, k);
    MoveFrom(item, items, invMap, m);
    if k.GroupKey? { PoolKnownExactlyWhen(k.id, items, catalog); }
    if IsPoolMove(item, invMap, m) {
      PoolHasRow(levels, item, items, catalog, m);
    } else if ad :| ad in invMap[item.productId].alsoDeductFrom && m == AlsoMove(ad, item, items, invMap) {
      assert item.productId in Ids(items);
      AlsoVisible(levels, item, items, ad, catalog);
    } else {
      OwnVisible(levels, item, items, catalog);
    }
  }

  /** In a tidy configuration the check refuses more than deduction exactly for requests that take from a
      pool none of whose own products they ask for. */
  lemma TidyValidExactlyWhen(levels: Levels, items: seq<Item>, catalog: Catalog)
    requires Agrees(levels, catalog) && NonNegative(levels) && Tidy(levels, catalog)
    ensures Valid(levels, items, catalog) <==>
            && Sufficient(levels, items, catalog)
            && forall g :: Count(items, catalog, GroupKey(g)) > 0 ==> PoolRequested(g, items, catalog)
  {
    ValidExactlyWhen(levels, items, catalog);
    forall k | Count(items, catalog, k) > 0
      ensures Visible(k, levels, Load(catalog, Ids(items))) <==> (k.GroupKey? ==> PoolRequested(k.id, items, catalog))
    {
      TidyVisible(levels, items, catalog, k);
    }
  }
}
